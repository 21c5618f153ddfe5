/**
  What a script must look like to be read to its end: the machine keeps its `if`s and its loops
  on two stacks that know nothing of each other, so that it takes every script in which each
  kind is well nested.  Where the two do not cross, that is a structured script.
*/
module NshAccepted {
  import opened NshOption
  import opened NshMachine
  import opened NshStructured
  import opened NshRun
  import opened NshSteps
  import opened NshGrammar

  // ----- Reading a script without running it -----

  // A loop that is open: its place, whether its `do` has come, and the `if`s open around it.
  datatype Open = Open(pos: int, doing: bool, level: nat)
  datatype Syn = Syn(ifs: seq<ItefState>, loops: seq<Open>)
  {
    function Top(): ItefState {
      if ifs == [] then IeNormal else ifs[|ifs| - 1]
    }

    // A while/until has been read and its `do` has not.
    predicate Awaits() {
      loops != [] && !loops[|loops| - 1].doing
    }

    predicate Between() {
      Top() != IeIf && !Awaits()
    }
  }

  function But<T>(s: seq<T>): seq<T> {
    if s == [] then [] else s[..|s| - 1]
  }

  function Reads(y: Syn, words: Command, p: int): Syn {
    if words == [] then y
    else
      match words[0]
      case KwIf => y.(ifs := y.ifs + [IeIf])
      case KwThen => y.(ifs := But(y.ifs) + [IeThen])
      case KwElse => y.(ifs := But(y.ifs) + [IeElse])
      case KwFi => y.(ifs := But(y.ifs))
      case KwWhile => y.(loops := y.loops + [Open(p, false, |y.ifs|)])
      case KwUntil => y.(loops := y.loops + [Open(p, false, |y.ifs|)])
      case KwDo => if y.loops == [] then y else y.(loops := But(y.loops) + [y.loops[|y.loops| - 1].(doing := true)])
      case KwDone => y.(loops := But(y.loops))
      case _ => y
  }

  function SynAt(script: seq<Command>, p: nat): Syn
    requires p <= |script|
  {
    if p == 0 then Syn([], []) else Reads(SynAt(script, p - 1), script[p - 1], p - 1)
  }

  // The clause may stand where `y` is open.
  predicate InPlace(y: Syn, words: Command) {
    words != [] &&
    match words[0]
    case KwIf => !Missing(words, 1) && (words[1] == KwBang ==> !Missing(words, 2)) && y.Between()
    case KwThen => y.Top() == IeIf && !y.Awaits()
    case KwElse => y.Top() == IeThen && !y.Awaits()
    case KwFi => |words| == 1 && y.Top() in {IeThen, IeElse} && !y.Awaits()
    case KwWhile => !Missing(words, 1) && y.Between()
    case KwUntil => !Missing(words, 1) && y.Between()
    case KwDo => y.Awaits()
    case KwDone => |words| == 1 && y.loops != [] && !y.Awaits()
    case _ => y.Between()
  }

  // `if`s and loops do not cross: the `if` that goes on was opened in the loop that is open, and
  // the loop that ends was opened in the `if` that is open.
  predicate StraightAt(y: Syn, words: Command) {
    y.loops != [] && words != [] ==>
      && (words[0] in {KwThen, KwElse, KwFi} ==> y.loops[|y.loops| - 1].level < |y.ifs|)
      && (words[0] == KwDone ==> y.loops[|y.loops| - 1].level == |y.ifs|)
  }

  predicate Straight(script: seq<Command>, q: nat)
    requires q < |script|
  {
    StraightAt(SynAt(script, q), script[q])
  }

  predicate Uncrossed(script: seq<Command>) {
    forall q :: 0 <= q < |script| ==> Straight(script, q)
  }

  // One command to a clause, no `break`, and no keyword for a test.
  predicate Tidy(words: Command) {
    words != [] && words != [KwBreak] &&
    match words[0]
    case KwIf => |words| > 1 ==> if words[1] == KwBang then |words| > 2 ==> words[2].Text? else words[1].Text?
    case KwWhile => |words| > 1 ==> words[1].Text?
    case KwUntil => |words| > 1 ==> words[1].Text?
    case KwThen => |words| == 1
    case KwElse => |words| == 1
    case KwDo => |words| == 1
    case _ => true
  }

  predicate AllTidy(script: seq<Command>) {
    forall q :: 0 <= q < |script| ==> Tidy(script[q])
  }

  // ----- From places to a tree -----

  // Loops are opened under no more `if`s than stay open.
  ghost predicate Leveled(y: Syn) {
    && (forall i :: 0 <= i < |y.loops| ==> y.loops[i].level <= |y.ifs|)
    && (forall i, j :: 0 <= i <= j < |y.loops| ==> y.loops[i].level <= y.loops[j].level)
  }

  lemma ReadsLeveled(y: Syn, words: Command, p: int)
    requires Leveled(y) && StraightAt(y, words)
    ensures Leveled(Reads(y, words, p))
  {
    var z := Reads(y, words, p);
    if y.loops != [] {
      var last := |y.loops| - 1;
      forall i | 0 <= i < |y.loops| ensures y.loops[i].level <= y.loops[last].level {
      }
    }
    assert |z.ifs| >= |y.ifs| || (words != [] && words[0] == KwFi && |z.ifs| == |y.ifs| - 1);
  }

  lemma {:induction false} LevelsHold(script: seq<Command>, p: nat)
    requires p <= |script| && Uncrossed(script)
    ensures Leveled(SynAt(script, p))
    decreases p
  {
    hide Leveled, Reads;
    if p == 0 {
      Bottom();
    } else {
      LevelsHold(script, p - 1);
      assert Straight(script, p - 1);
      ReadsLeveled(SynAt(script, p - 1), script[p - 1], p - 1);
    }
  }

  lemma Bottom()
    ensures Leveled(Syn([], []))
  {
  }

  // Every clause is in place, nothing is left open, and nothing crosses.
  ghost predicate Good(script: seq<Command>) {
    && AllTidy(script) && Uncrossed(script) && SynAt(script, |script|) == Syn([], [])
    && forall q :: 0 <= q < |script| ==> InPlace(SynAt(script, q), script[q])
  }

  // The next clause, as it must be.
  lemma Next(script: seq<Command>, p: nat)
    requires Good(script) && p <= |script|
    ensures var y := SynAt(script, p);
            && Leveled(y)
            && (y != Syn([], []) ==> p < |script|)
            && (p < |script| ==>
                  && InPlace(y, script[p]) && Tidy(script[p]) && StraightAt(y, script[p])
                  && SynAt(script, p + 1) == Reads(y, script[p], p))
  {
    hide Leveled, Reads, InPlace, Tidy, StraightAt;
    LevelsHold(script, p);
    if p < |script| {
      assert Straight(script, p);
    }
  }

  // A block ends at the end of the script, or where an enclosing statement goes on.
  predicate Closes(script: seq<Command>, e: nat)
    requires e <= |script|
  {
    e < |script| ==> script[e] != [] && script[e][0] in {KwElse, KwFi, KwDone}
  }

  // From `p` to `e` stands the block.
  ghost predicate Stands(script: seq<Command>, p: nat, e: nat, b: Block) {
    p <= e <= |script| && script[p..e] == FlatBlock(b) && ProperBlock(b) && SynAt(script, e) == SynAt(script, p)
  }

  lemma {:induction false} TreeFrom(script: seq<Command>, p: nat) returns (b: Block, e: nat)
    requires Good(script) && p <= |script| && SynAt(script, p).Between()
    ensures Stands(script, p, e, b) && Closes(script, e)
    decreases |script| - p, 1
  {
    hide Good, FlatBlock, ProperBlock, SynAt, Leveled, StraightAt;
    Next(script, p);
    if p == |script| || script[p][0] in {KwElse, KwFi, KwDone} {
      b, e := Nil, p;
      NilStands(script, p);
    } else {
      var s, m := StmtFrom(script, p);
      var rest;
      rest, e := TreeFrom(script, m);
      b := Cons(s, rest);
      ConsStands(script, p, m, e, s, rest);
    }
  }

  lemma NilStands(script: seq<Command>, p: nat)
    requires p <= |script|
    ensures Stands(script, p, p, Nil)
  {
  }

  ghost predicate StmtStands(script: seq<Command>, p: nat, e: nat, s: Stmt) {
    p < e <= |script| && script[p..e] == FlatStmt(s) && ProperStmt(s) && SynAt(script, e) == SynAt(script, p)
  }

  lemma ConsStands(script: seq<Command>, p: nat, m: nat, e: nat, s: Stmt, rest: Block)
    requires StmtStands(script, p, m, s) && Stands(script, m, e, rest)
    ensures Stands(script, p, e, Cons(s, rest))
  {
    hide FlatStmt, ProperStmt, SynAt;
    assert script[p..e] == script[p..m] + script[m..e];
  }

  lemma {:induction false} StmtFrom(script: seq<Command>, p: nat) returns (s: Stmt, e: nat)
    requires Good(script) && p < |script| && SynAt(script, p).Between()
    requires script[p] != [] && script[p][0] !in {KwElse, KwFi, KwDone}
    ensures StmtStands(script, p, e, s)
    decreases |script| - p, 0
  {
    hide Good, FlatBlock, ProperBlock, SynAt, Leveled, StraightAt;
    Next(script, p);
    if script[p][0] == KwIf {
      s, e := IfFrom(script, p);
    } else if script[p][0] in {KwWhile, KwUntil} {
      s, e := LoopFrom(script, p);
    } else {
      s, e := Cmd(script[p]), p + 1;
      assert script[p..p + 1] == [script[p]];
    }
  }

  // After the test of an `if` comes its `then`.
  lemma ThenNext(script: seq<Command>, p: nat)
    requires Good(script) && p < |script| && SynAt(script, p).Between() && script[p] != [] && script[p][0] == KwIf
    ensures p + 1 < |script| && script[p + 1] == [KwThen]
    ensures var y := SynAt(script, p);
            SynAt(script, p + 2) == y.(ifs := y.ifs + [IeThen]) && SynAt(script, p + 2).Between() && Leveled(y)
  {
    hide Good, SynAt;
    Next(script, p);
    Next(script, p + 1);
    var y := SynAt(script, p);
    assert But(y.ifs + [IeIf]) == y.ifs;
  }

  // After a branch of the `if` comes its `else` or its `fi`.
  lemma BranchEnds(script: seq<Command>, e: nat, y: Syn, state: ItefState)
    requires Good(script) && e <= |script| && Closes(script, e) && Leveled(y) && state in {IeThen, IeElse}
    requires SynAt(script, e) == y.(ifs := y.ifs + [state])
    ensures e < |script|
    ensures || (script[e] == [KwFi] && SynAt(script, e + 1) == y)
            || (state == IeThen && script[e] == [KwElse] && SynAt(script, e + 1) == y.(ifs := y.ifs + [IeElse]))
  {
    hide Good, SynAt;
    Next(script, e);
    assert But(y.ifs + [state]) == y.ifs;
  }

  lemma {:induction false} IfFrom(script: seq<Command>, p: nat) returns (s: Stmt, e: nat)
    requires Good(script) && p < |script| && SynAt(script, p).Between() && script[p] != [] && script[p][0] == KwIf
    ensures StmtStands(script, p, e, s)
    decreases |script| - p, -1
  {
    hide Good, FlatBlock, FlatStmt, ProperBlock, SynAt, Leveled, StraightAt, Closes;
    ThenNext(script, p);
    var y := SynAt(script, p);
    var thn, m := TreeFrom(script, p + 2);
    BranchEnds(script, m, y, IeThen);
    if script[m] == [KwFi] {
      e := m + 1;
      s := IfOf(script, p, m, m, thn, false, Nil);
    } else {
      var els, f := TreeFrom(script, m + 1);
      BranchEnds(script, f, y, IeElse);
      e := f + 1;
      s := IfOf(script, p, m, f, thn, true, els);
    }
  }

  // Two clauses, a stretch, and, if `m < f`, a clause and another stretch before the last one.
  lemma Pieces(script: seq<Command>, p: nat, m: nat, f: nat)
    requires p + 2 <= m <= f < |script|
    ensures script[p..f + 1] == [script[p], script[p + 1]] + script[p + 2..m]
                                + (if m < f then [script[m]] + script[m + 1..f] else []) + [script[f]]
  {
    var front := [script[p], script[p + 1]] + script[p + 2..m];
    assert script[p..m] == front;
    assert script[m..f + 1] == (if m < f then [script[m]] + script[m + 1..f] else []) + [script[f]];
    assert script[p..f + 1] == script[p..m] + script[m..f + 1];
  }

  lemma TestOf(words: Command) returns (inverted: bool, cond: Command)
    requires Tidy(words) && words[0] == KwIf && !Missing(words, 1) && (words[1] == KwBang ==> !Missing(words, 2))
    ensures Condition(cond) && words == IfWords(inverted, cond)
  {
    inverted := words[1] == KwBang;
    cond := if inverted then words[2..] else words[1..];
  }

  // The pieces of an `if`, from its test at `p` to its `fi` at `f`.
  lemma IfOf(script: seq<Command>, p: nat, m: nat, f: nat, thn: Block, hasElse: bool, els: Block) returns (s: Stmt)
    requires Good(script) && p + 2 <= m <= f < |script| && script[p] != [] && script[p][0] == KwIf
    requires script[p + 1] == [KwThen] && script[f] == [KwFi] && SynAt(script, f + 1) == SynAt(script, p)
    requires Stands(script, p + 2, m, thn)
    requires if hasElse then m < f && script[m] == [KwElse] && Stands(script, m + 1, f, els) else m == f
    ensures StmtStands(script, p, f + 1, s)
  {
    hide SynAt, FlatBlock, ProperBlock, Uncrossed, Straight;
    var words := script[p];
    assert Tidy(words) && InPlace(SynAt(script, p), words);
    hide Tidy, InPlace;
    var inverted, cond := TestOf(words);
    s := If(inverted, cond, thn, hasElse, els);
    if hasElse {
      Pieces(script, p, m, f);
    } else {
      Pieces(script, p, m, m);
    }
  }

  lemma DoNext(script: seq<Command>, p: nat)
    requires Good(script) && p < |script| && SynAt(script, p).Between() && script[p] != []
    requires script[p][0] in {KwWhile, KwUntil}
    ensures p + 1 < |script| && script[p + 1] == [KwDo]
    ensures var y := SynAt(script, p);
            && SynAt(script, p + 2) == y.(loops := y.loops + [Open(p, true, |y.ifs|)])
            && SynAt(script, p + 2).Between()
  {
    hide Good, SynAt, Leveled, StraightAt, InPlace, Tidy, Reads;
    Next(script, p);
    Next(script, p + 1);
    var y := SynAt(script, p);
    ReadsWhile(y, script[p], p);
    OnlyDo(SynAt(script, p + 1), script[p + 1]);
    ReadsDo(y, p);
  }

  lemma ReadsWhile(y: Syn, words: Command, p: int)
    requires words != [] && words[0] in {KwWhile, KwUntil}
    ensures Reads(y, words, p) == y.(loops := y.loops + [Open(p, false, |y.ifs|)]) && Reads(y, words, p).Awaits()
  {
  }

  lemma OnlyDo(y: Syn, words: Command)
    requires y.Awaits() && InPlace(y, words) && Tidy(words)
    ensures words == [KwDo]
  {
  }

  lemma ReadsDo(y: Syn, p: int)
    ensures Reads(y.(loops := y.loops + [Open(p, false, |y.ifs|)]), [KwDo], p + 1)
            == y.(loops := y.loops + [Open(p, true, |y.ifs|)])
  {
    assert But(y.loops + [Open(p, false, |y.ifs|)]) == y.loops;
  }

  lemma BodyEnds(script: seq<Command>, e: nat, y: Syn, p: int)
    requires Good(script) && e <= |script| && Closes(script, e)
    requires SynAt(script, e) == y.(loops := y.loops + [Open(p, true, |y.ifs|)])
    ensures e < |script| && script[e] == [KwDone] && SynAt(script, e + 1) == y
  {
    hide Good, SynAt;
    Next(script, e);
    assert But(y.loops + [Open(p, true, |y.ifs|)]) == y.loops;
  }

  lemma {:induction false} LoopFrom(script: seq<Command>, p: nat) returns (s: Stmt, e: nat)
    requires Good(script) && p < |script| && SynAt(script, p).Between() && script[p] != []
    requires script[p][0] in {KwWhile, KwUntil}
    ensures StmtStands(script, p, e, s)
    decreases |script| - p, -1
  {
    hide Good, FlatBlock, FlatStmt, ProperBlock, SynAt, Closes;
    DoNext(script, p);
    var body, m := TreeFrom(script, p + 2);
    BodyEnds(script, m, SynAt(script, p), p);
    e := m + 1;
    s := LoopOf(script, p, m, body);
  }

  lemma LoopOf(script: seq<Command>, p: nat, m: nat, body: Block) returns (s: Stmt)
    requires Good(script) && p + 2 <= m < |script| && script[p] != [] && script[p][0] in {KwWhile, KwUntil}
    requires script[p + 1] == [KwDo] && script[m] == [KwDone] && SynAt(script, m + 1) == SynAt(script, p)
    requires Stands(script, p + 2, m, body)
    ensures StmtStands(script, p, m + 1, s)
  {
    hide SynAt, FlatBlock, ProperBlock, Uncrossed, Straight;
    var words := script[p];
    assert Tidy(words) && InPlace(SynAt(script, p), words);
    assert words == [words[0]] + words[1..];
    s := Repeat(words[0] == KwUntil, words[1..], body);
    assert script[p..m + 1] == [words, [KwDo]] + script[p + 2..m] + [[KwDone]];
  }

  lemma GoodIsFlat(script: seq<Command>) returns (b: Block)
    requires Good(script)
    ensures ProperBlock(b) && script == FlatBlock(b)
  {
    hide FlatBlock, ProperBlock, InPlace, Uncrossed, AllTidy;
    var e;
    assert SynAt(script, 0) == Syn([], []);
    b, e := TreeFrom(script, 0);
    if e < |script| {
      Next(script, e);
      EmptyCloses(script, e);
      assert false;
    }
    assert script[0..e] == script;
  }

  lemma EmptyCloses(script: seq<Command>, e: nat)
    requires e < |script| && InPlace(Syn([], []), script[e])
    ensures script[e] != [] && script[e][0] !in {KwElse, KwFi, KwDone}
  {
  }

  // ----- From runs to places -----

  // The stacks hold what is open.
  ghost predicate Matches(np: Np, y: Syn) {
    && Safe(np) && np.fd >= 0
    && np.iendx == |y.ifs| && (forall j :: 0 <= j < |y.ifs| ==> np.ie[j + 1].state == y.ifs[j])
    && np.lpndx == |y.loops|
    && forall k :: 0 <= k < |y.loops| ==>
         && np.lp[k + 1].topoffs == y.loops[k].pos
         && (np.lp[k + 1].state == LpDo <==> y.loops[k].doing)
  }

  lemma Tops(np: Np, y: Syn)
    requires Matches(np, y)
    ensures np.IeTop().state == y.Top() && np.AwaitsDo() == y.Awaits()
    ensures np.LpTop().state == LpDo <==> y.loops != [] && !y.Awaits()
  {
    hide SafeSaved;
    if y.loops != [] {
      var k := |y.loops| - 1;
      assert np.lp[k + 1].state == LpDo <==> y.loops[k].doing;
    }
  }

  // A clause that is not rejected is in place.
  lemma AcceptedInPlace(np: Np, y: Syn, words: Command)
    requires Matches(np, y) && words != [] && !Misplaced(np, words) && Tidy(words)
    ensures InPlace(y, words)
  {
    hide Safe;
    Tops(np, y);
    hide Matches;
  }

  // The clause at `p` is handled; a jump goes back to the loop that `done` ends.
  ghost predicate Moves(y: Syn, words: Command, p: int, np: Np) {
    && Matches(np, Reads(y, words, p))
    && (np.jump ==> words != [] && words[0] == KwDone && y.loops != [] && np.seek == y.loops[|y.loops| - 1].pos)
  }

  ghost predicate Fitting(np: Np, y: Syn, words: Command) {
    Matches(np, y) && !np.jump && np.foffs >= 0 && words != [] && Tidy(words) && !Misplaced(np, words)
  }

  lemma MovesIf(np: Np, y: Syn, words: Command, p: int, trace: seq<Command>, oracle: Oracle)
    requires Fitting(np, y, words) && words[0] == KwIf
    ensures Moves(y, words, p, ParseCommand(np, words, trace, oracle).np)
  {
    CommandKeepsSafe(np, words, trace, oracle);
    hide SafeSaved, CmdEnabled, ParseCommand;
    var inverted, cond := TestOf(words);
    hide Tidy;
    ParseIf(np, inverted, cond, trace, oracle);
    MatchesIf(np, y, ParseCommand(np, words, trace, oracle).np);
  }

  lemma MatchesIf(np: Np, y: Syn, np': Np)
    requires Matches(np, y) && np.iendx + 1 < |np.ie| && Safe(np')
    requires np' == np.(fail := np'.fail, iendx := np.iendx + 1, ie := np'.ie)
    requires |np'.ie| == |np.ie| && (forall j :: 0 <= j <= np.iendx ==> np'.ie[j] == np.ie[j])
    requires np'.ie[np.iendx + 1].state == IeIf
    ensures Matches(np', y.(ifs := y.ifs + [IeIf]))
  {
    hide Safe;
  }

  lemma MovesThen(np: Np, y: Syn, words: Command, p: int, trace: seq<Command>, oracle: Oracle)
    requires Fitting(np, y, words) && words[0] in {KwThen, KwElse}
    ensures Moves(y, words, p, ParseCommand(np, words, trace, oracle).np)
  {
    CommandKeepsSafe(np, words, trace, oracle);
    assert y.ifs != [] by { Tops(np, y); }
    hide Safe, SafeSaved, CmdEnabled, ParseCommand;
    assert words == [words[0]];
    if words[0] == KwThen {
      ParseThen(np, trace, oracle);
    } else {
      ParseElse(np, trace, oracle);
    }
  }

  lemma MovesFi(np: Np, y: Syn, words: Command, p: int, trace: seq<Command>, oracle: Oracle)
    requires Fitting(np, y, words) && words[0] == KwFi
    ensures Moves(y, words, p, ParseCommand(np, words, trace, oracle).np)
  {
    CommandKeepsSafe(np, words, trace, oracle);
    hide SafeSaved, CmdEnabled, ParseCommand;
    assert words == [KwFi];
    ParseFi(np, trace, oracle);
  }

  lemma MovesWhile(np: Np, y: Syn, words: Command, p: int, trace: seq<Command>, oracle: Oracle)
    requires Fitting(np, y, words) && words[0] in {KwWhile, KwUntil} && np.foffs + np.loffs == p
    ensures Moves(y, words, p, ParseCommand(np, words, trace, oracle).np)
  {
    CommandKeepsSafe(np, words, trace, oracle);
    hide SafeSaved, CmdEnabled, ParseCommand;
    assert words == [LoopKeyword(words[0] == KwUntil)] + words[1..];
    ParseWhile(np, words[0] == KwUntil, words[1..], trace, oracle);
    MatchesLoop(np, y, p, ParseCommand(np, words, trace, oracle).np);
  }

  lemma MatchesLoop(np: Np, y: Syn, p: int, np': Np)
    requires Matches(np, y) && np.lpndx + 1 < |np.lp| && Safe(np')
    requires np' == np.(fail := np'.fail, jump := false, lpndx := np.lpndx + 1, lp := np'.lp)
    requires |np'.lp| == |np.lp| && (forall k :: 0 <= k <= np.lpndx ==> np'.lp[k] == np.lp[k])
    requires np'.lp[np.lpndx + 1].state in {LpWhile, LpUntil} && np'.lp[np.lpndx + 1].topoffs == p
    ensures Matches(np', y.(loops := y.loops + [Open(p, false, |y.ifs|)]))
  {
    hide Safe;
  }

  lemma MovesDo(np: Np, y: Syn, words: Command, p: int, trace: seq<Command>, oracle: Oracle)
    requires Fitting(np, y, words) && words[0] == KwDo
    ensures Moves(y, words, p, ParseCommand(np, words, trace, oracle).np)
  {
    CommandKeepsSafe(np, words, trace, oracle);
    assert y.loops != [] by { Tops(np, y); }
    hide SafeSaved, CmdEnabled, ParseCommand;
    assert words == [KwDo];
    ParseDo(np, trace, oracle);
  }

  lemma MovesDone(np: Np, y: Syn, words: Command, p: int, trace: seq<Command>, oracle: Oracle)
    requires Fitting(np, y, words) && words[0] == KwDone
    ensures Moves(y, words, p, ParseCommand(np, words, trace, oracle).np)
  {
    CommandKeepsSafe(np, words, trace, oracle);
    hide SafeSaved, CmdEnabled, ParseCommand;
    assert words == [KwDone];
    ParseDone(np, trace, oracle);
  }

  lemma MovesPlain(np: Np, y: Syn, words: Command, p: int, trace: seq<Command>, oracle: Oracle)
    requires Fitting(np, y, words) && PlainCommand(words)
    ensures Moves(y, words, p, ParseCommand(np, words, trace, oracle).np)
  {
    CommandKeepsSafe(np, words, trace, oracle);
    hide SafeSaved, LoopPhase, ItefPhase, CmdEnabled;
    ParsePlain(np, words, trace, oracle);
  }

  lemma MovesOn(np: Np, y: Syn, words: Command, p: int, trace: seq<Command>, oracle: Oracle)
    requires Fitting(np, y, words) && np.foffs + np.loffs == p
    ensures Moves(y, words, p, ParseCommand(np, words, trace, oracle).np)
  {
    hide Matches, Moves, ParseCommand, Misplaced, Tidy;
    match words[0]
    case KwIf => MovesIf(np, y, words, p, trace, oracle);
    case KwThen => MovesThen(np, y, words, p, trace, oracle);
    case KwElse => MovesThen(np, y, words, p, trace, oracle);
    case KwFi => MovesFi(np, y, words, p, trace, oracle);
    case KwWhile => MovesWhile(np, y, words, p, trace, oracle);
    case KwUntil => MovesWhile(np, y, words, p, trace, oracle);
    case KwDo => MovesDo(np, y, words, p, trace, oracle);
    case KwDone => MovesDone(np, y, words, p, trace, oracle);
    case _ =>
      IsPlain(np, y, words);
      MovesPlain(np, y, words, p, trace, oracle);
  }

  lemma IsPlain(np: Np, y: Syn, words: Command)
    requires Fitting(np, y, words) && (words[0].Text? || words[0] in {KwBang, KwBreak})
    ensures PlainCommand(words)
  {
    hide Matches, Misplaced;
  }

  // What was open where an open loop was opened.
  ghost predicate OpenedIn(script: seq<Command>, y: Syn, i: nat)
    requires i < |y.loops|
  {
    var o := y.loops[i];
    && 0 <= o.pos <= |script| && o.level <= |y.ifs|
    && SynAt(script, o.pos) == Syn(y.ifs[..o.level], y.loops[..i])
  }

  lemma {:induction false} LoopTop(script: seq<Command>, p: nat, i: nat)
    requires p <= |script| && Uncrossed(script) && i < |SynAt(script, p).loops|
    ensures OpenedIn(script, SynAt(script, p), i) && 0 <= SynAt(script, p).loops[i].pos < p
    decreases p
  {
    var y := SynAt(script, p - 1);
    LevelsHold(script, p - 1);
    assert Straight(script, p - 1);
    if i < |y.loops| {
      LoopTop(script, p - 1, i);
    }
    hide SynAt;
    TopKept(script, y, script[p - 1], p - 1, i);
  }

  // Neither the loops below an open one change, nor the `if`s around it.
  lemma StackKept(y: Syn, words: Command, p: nat, i: nat)
    requires Leveled(y) && StraightAt(y, words) && i < |y.loops| && i < |Reads(y, words, p).loops|
    ensures var z, o := Reads(y, words, p), y.loops[i];
            && z.loops[i].pos == o.pos && z.loops[i].level == o.level && z.loops[..i] == y.loops[..i]
            && o.level <= |y.ifs| && o.level <= |z.ifs| && z.ifs[..o.level] == y.ifs[..o.level]
  {
    var z, o, top := Reads(y, words, p), y.loops[i], y.loops[|y.loops| - 1];
    assert o.level <= top.level;
    assert z.ifs == y.ifs || But(y.ifs) <= z.ifs || y.ifs <= z.ifs;
  }

  lemma SameOpened(script: seq<Command>, y: Syn, z: Syn, i: nat)
    requires i < |y.loops| && i < |z.loops| && OpenedIn(script, y, i)
    requires var o := y.loops[i];
             && z.loops[i].pos == o.pos && z.loops[i].level == o.level && z.loops[..i] == y.loops[..i]
             && o.level <= |z.ifs| && z.ifs[..o.level] == y.ifs[..o.level]
    ensures OpenedIn(script, z, i)
  {
    hide SynAt;
  }

  lemma TopKept(script: seq<Command>, y: Syn, words: Command, p: nat, i: nat)
    requires Leveled(y) && StraightAt(y, words) && i < |Reads(y, words, p).loops|
    requires p < |script| && SynAt(script, p) == y && (i < |y.loops| ==> OpenedIn(script, y, i))
    ensures OpenedIn(script, Reads(y, words, p), i)
  {
    hide SynAt;
    var z := Reads(y, words, p);
    if i < |y.loops| {
      hide OpenedIn;
      StackKept(y, words, p, i);
      SameOpened(script, y, z, i);
    } else {
      assert z.loops[..i] == y.loops && z.ifs[..|y.ifs|] == y.ifs;
    }
  }

  // The next clause of the run is not rejected.
  ghost predicate Takes(sh: Shell, c: Config)
    requires Safe(c.np)
  {
    c.Running? && 0 <= c.pos < |sh.script| ==>
      !ParseCommand(Positioned(c.np, c.pos), sh.script[c.pos], c.trace, sh.oracle).rejected
  }

  // Nor is any other, however long the run is.
  ghost predicate TakesAll(sh: Shell, c: Config)
    requires Safe(c.np)
  {
    forall i: nat :: Takes(sh, Iter(sh, c, i))
  }

  lemma TakesOn(sh: Shell, c: Config)
    requires Safe(c.np) && TakesAll(sh, c)
    ensures Takes(sh, c) && TakesAll(sh, Step(sh, c))
  {
    hide Step, Takes;
    assert Takes(sh, Iter(sh, c, 0));
    forall i: nat ensures Takes(sh, Iter(sh, Step(sh, c), i)) {
      assert Takes(sh, Iter(sh, c, i + 1));
    }
  }

  // The clauses before `far` are in place.
  ghost predicate PlacedTo(script: seq<Command>, far: nat)
    requires far <= |script|
  {
    forall q :: 0 <= q < far ==> InPlace(SynAt(script, q), script[q])
  }

  // One clause of a run over a script that does not cross.
  lemma TakesStep(sh: Shell, np: Np, p: nat, trace: seq<Command>, far: nat)
    requires Uncrossed(sh.script) && AllTidy(sh.script) && p < |sh.script| && p <= far <= |sh.script|
    requires Matches(np, SynAt(sh.script, p)) && Takes(sh, Running(np, p, trace)) && PlacedTo(sh.script, far)
    ensures Goes(sh.script, if p == far then far + 1 else far, Step(sh, Running(np, p, trace)))
  {
    hide SynAt, Matches, Misplaced, Reads, Tidy, InPlace, ParseCommand, StraightAt, PlacedTo, Takes, OpenedIn, Step;
    MatchesPositioned(np, SynAt(sh.script, p), p);
    var y, q, words := SynAt(sh.script, p), Positioned(np, p), sh.script[p];
    assert Tidy(words) && Straight(sh.script, p);
    TakesMoves(sh, np, p, trace);
    OneMore(sh.script, p);
    var r := ParseCommand(q, words, trace, sh.oracle);
    FartherTo(sh.script, p, far);
    if r.np.jump {
      LoopTop(sh.script, p, |y.loops| - 1);
      BackAgain(sh.script, y, words, p);
    }
  }

  // The run stops short of the end, or goes on where the clauses before `far` are in place.
  ghost predicate Goes(script: seq<Command>, far: nat, d: Config) {
    match d
    case Halted(_, _, atEnd) => !atEnd
    case Running(np, p, _) =>
      0 <= p <= far <= |script| && Matches(np, SynAt(script, p)) && PlacedTo(script, far)
  }

  lemma TakesMoves(sh: Shell, np: Np, p: nat, trace: seq<Command>)
    requires p < |sh.script| && Tidy(sh.script[p]) && Safe(np) && Safe(Positioned(np, p))
    requires Matches(np, SynAt(sh.script, p)) && Takes(sh, Running(np, p, trace))
    ensures var y, r := SynAt(sh.script, p), ParseCommand(Positioned(np, p), sh.script[p], trace, sh.oracle);
            && Moves(y, sh.script[p], p, r.np) && InPlace(y, sh.script[p]) && !r.rejected
            && Step(sh, Running(np, p, trace)) == if !r.ok && !sh.ignore then Halted(r.np, Ran(trace, r), false)
                                                  else Running(r.np, if r.np.jump then r.np.seek
                                                      else p + 1, Ran(trace, r))
  {
    var y, q, words := SynAt(sh.script, p), Positioned(np, p), sh.script[p];
    MatchesPositioned(np, y, p);
    hide SynAt, Matches, Reads, Misplaced, InPlace, Moves;
    RejectedIff(q, words, trace, sh.oracle);
    hide ParseCommand;
    assert words != [];
    hide Tidy;
    AcceptedInPlace(q, y, words);
    MovesOn(q, y, words, p, trace, sh.oracle);
  }

  lemma FartherTo(script: seq<Command>, p: nat, far: nat)
    requires p <= far <= |script| && p < |script| && PlacedTo(script, far) && InPlace(SynAt(script, p), script[p])
    ensures PlacedTo(script, if p == far then far + 1 else far)
  {
    hide SynAt, InPlace;
  }

  lemma OneMore(script: seq<Command>, p: nat)
    requires p < |script|
    ensures SynAt(script, p + 1) == Reads(SynAt(script, p), script[p], p)
  {
  }

  lemma MatchesPositioned(np: Np, y: Syn, p: int)
    requires Matches(np, y)
    ensures Matches(Positioned(np, p), y) && Safe(np) && Safe(Positioned(np, p))
  {
  }

  // Where `done` goes back to, what is open is what is open after it.
  lemma BackAgain(script: seq<Command>, y: Syn, words: Command, p: int)
    requires y.loops != [] && words != [] && words[0] == KwDone && StraightAt(y, words)
    requires OpenedIn(script, y, |y.loops| - 1)
    ensures SynAt(script, y.loops[|y.loops| - 1].pos) == Reads(y, words, p)
  {
    hide SynAt;
  }

  lemma {:induction false} TakesToEnd(sh: Shell, np: Np, p: nat, trace: seq<Command>, far: nat, n: nat)
    requires Uncrossed(sh.script) && AllTidy(sh.script) && p <= far <= |sh.script|
    requires Matches(np, SynAt(sh.script, p)) && TakesAll(sh, Running(np, p, trace)) && PlacedTo(sh.script, far)
    ensures var d := Iter(sh, Running(np, p, trace), n);
            d.Halted? && d.atEnd ==> PlacedTo(sh.script, |sh.script|) && Matches(d.np, SynAt(sh.script, |sh.script|))
    decreases n
  {
    hide SynAt, Step, Takes, TakesAll, PlacedTo, Uncrossed, AllTidy;
    if n == 0 {
    } else {
      var c := Running(np, p, trace);
      var d := Step(sh, c);
      TakesOn(sh, c);
      if p == |sh.script| {
        AtTheEnd(sh, c);
        HaltedStays(sh, d, n - 1);
      } else {
        TakesStep(sh, np, p, trace, far);
        if d.Running? {
          TakesToEnd(sh, d.np, d.pos, d.trace, if p == far then far + 1 else far, n - 1);
        } else {
          HaltedStays(sh, d, n - 1);
        }
      }
    }
  }

  /**
    Take a script of separate clauses and without `break`, and any results of its commands with
    which it is read to its end without a rejection and with nothing left open.  It is a structured
    script if and only if no `if` and loop cross.
  */
  lemma AcceptedIsStructured(sh: Shell, np: Np, trace: seq<Command>, n: nat)
    requires AllTidy(sh.script) && Safe(np) && np.fd >= 0 && np.iendx == 0 && np.lpndx == 0
    requires TakesAll(sh, Running(np, 0, trace))
    requires var d := Iter(sh, Running(np, 0, trace), n);
             d.Halted? && d.atEnd && d.np.iendx == 0 && d.np.lpndx == 0
    ensures (exists b: Block :: ProperBlock(b) && sh.script == FlatBlock(b)) <==> Uncrossed(sh.script)
  {
    hide Iter, TakesAll, FlatBlock, ProperBlock, Straight;
    if Uncrossed(sh.script) {
      Begin(sh.script, np);
      TakesToEnd(sh, np, 0, trace, 0, n);
      Finish(sh.script, Iter(sh, Running(np, 0, trace), n).np);
      var b := GoodIsFlat(sh.script);
    }
    if b: Block :| ProperBlock(b) && sh.script == FlatBlock(b) {
      FlatUncrossed(b);
    }
  }

  lemma Begin(script: seq<Command>, np: Np)
    requires Safe(np) && np.fd >= 0 && np.iendx == 0 && np.lpndx == 0
    ensures Matches(np, SynAt(script, 0)) && PlacedTo(script, 0)
  {
  }

  lemma Finish(script: seq<Command>, np: Np)
    requires AllTidy(script) && Uncrossed(script) && PlacedTo(script, |script|)
    requires Matches(np, SynAt(script, |script|)) && np.iendx == 0 && np.lpndx == 0
    ensures Good(script)
  {
    hide Safe, InPlace, AllTidy, Uncrossed;
    var y := SynAt(script, |script|);
    assert y.ifs == [] && y.loops == [];
  }

  // ----- From trees to places -----

  // The block at `p` crosses nothing and leaves open what was open.
  ghost predicate Level(script: seq<Command>, p: nat, e: nat) {
    && p <= e <= |script| && SynAt(script, e) == SynAt(script, p)
    && forall q :: p <= q < e ==> Straight(script, q)
  }

  lemma {:induction false} FlatLevel(script: seq<Command>, b: Block, p: nat)
    requires At(script, p, FlatBlock(b)) && ProperBlock(b) && Leveled(SynAt(script, p))
    ensures Level(script, p, p + |FlatBlock(b)|)
    decreases b, 1
  {
    hide FlatStmt, SynAt, Straight, Leveled, ProperStmt;
    match b
    case Nil =>
    case Cons(s, rest) =>
      AtSplit(script, p, FlatStmt(s), FlatBlock(rest));
      StmtLevel(script, s, p);
      FlatLevel(script, rest, p + |FlatStmt(s)|);
  }

  lemma {:induction false} StmtLevel(script: seq<Command>, s: Stmt, p: nat)
    requires At(script, p, FlatStmt(s)) && ProperStmt(s) && Leveled(SynAt(script, p))
    ensures Level(script, p, p + |FlatStmt(s)|)
    decreases s, 0
  {
    match s
    case Cmd(argv) => PlainLevel(script, p, argv);
    case Break => PlainLevel(script, p, [KwBreak]);
    case If(_, _, _, _, _) => IfLevel(script, s, p);
    case Repeat(_, _, _) => LoopLevel(script, s, p);
  }

  lemma ClauseReads(script: seq<Command>, p: nat, words: Command)
    requires At(script, p, [words])
    ensures p < |script| && script[p] == words && SynAt(script, p + 1) == Reads(SynAt(script, p), words, p)
    ensures Straight(script, p) == StraightAt(SynAt(script, p), words)
  {
    assert script[p..p + 1][0] == words;
  }

  lemma PlainLevel(script: seq<Command>, p: nat, argv: Command)
    requires At(script, p, [argv]) && (PlainCommand(argv) || argv == [KwBreak])
    ensures Level(script, p, p + 1)
  {
    ClauseReads(script, p, argv);
    hide SynAt;
  }

  lemma {:induction false} IfLevel(script: seq<Command>, s: Stmt, p: nat)
    requires s.If? && At(script, p, FlatStmt(s)) && ProperStmt(s) && Leveled(SynAt(script, p))
    ensures Level(script, p, p + |FlatStmt(s)|)
    decreases s, 0, 0
  {
    hide FlatBlock, FlatStmt, At, SynAt, ProperBlock, Straight, Reads, StraightAt, Leveled;
    AtIf(script, p, s);
    ClauseReads(script, p, IfWords(s.inverted, s.cond));
    ClauseReads(script, p + 1, [KwThen]);
    var y, t, e := SynAt(script, p), p + 2, p + 2 + |FlatBlock(s.thn)|;
    ReadsIf(y, IfWords(s.inverted, s.cond), p);
    FlatLevel(script, s.thn, t);
    if s.hasElse {
      ClauseReads(script, e, [KwElse]);
      ReadsElse(y, e);
      FlatLevel(script, s.els, e + 1);
      var f := e + 1 + |FlatBlock(s.els)|;
      ClauseReads(script, f, [KwFi]);
      ReadsFi(y, IeElse, f);
    } else {
      ClauseReads(script, e, [KwFi]);
      ReadsFi(y, IeThen, e);
    }
  }

  lemma ReadsIf(y: Syn, words: Command, p: int)
    requires words != [] && words[0] == KwIf && Leveled(y)
    ensures var z := Reads(y, words, p);
            && StraightAt(y, words) && StraightAt(z, [KwThen])
            && Reads(z, [KwThen], p + 1) == y.(ifs := y.ifs + [IeThen]) && Leveled(y.(ifs := y.ifs + [IeThen]))
  {
    assert But(y.ifs + [IeIf]) == y.ifs;
  }

  lemma ReadsElse(y: Syn, p: int)
    requires Leveled(y)
    ensures var z := y.(ifs := y.ifs + [IeThen]);
            && StraightAt(z, [KwElse]) && Leveled(y.(ifs := y.ifs + [IeElse]))
            && Reads(z, [KwElse], p) == y.(ifs := y.ifs + [IeElse])
  {
    assert But(y.ifs + [IeThen]) == y.ifs;
  }

  lemma ReadsFi(y: Syn, state: ItefState, p: int)
    requires Leveled(y)
    ensures var z := y.(ifs := y.ifs + [state]); StraightAt(z, [KwFi]) && Reads(z, [KwFi], p) == y
  {
    assert But(y.ifs + [state]) == y.ifs;
  }

  lemma {:induction false} LoopLevel(script: seq<Command>, s: Stmt, p: nat)
    requires s.Repeat? && At(script, p, FlatStmt(s)) && ProperStmt(s) && Leveled(SynAt(script, p))
    ensures Level(script, p, p + |FlatStmt(s)|)
    decreases s, 0, 0
  {
    hide FlatBlock, FlatStmt, At, SynAt, ProperBlock, Straight, Reads, StraightAt, Leveled;
    AtRepeat(script, p, s);
    var words := [LoopKeyword(s.until)] + s.cond;
    ClauseReads(script, p, words);
    ClauseReads(script, p + 1, [KwDo]);
    var y, e := SynAt(script, p), p + 2 + |FlatBlock(s.body)|;
    ReadsWhile(y, words, p);
    ReadsDo(y, p);
    NoCrossing(y, words, p);
    FlatLevel(script, s.body, p + 2);
    ClauseReads(script, e, [KwDone]);
    ReadsDone(y, p, e);
  }

  lemma NoCrossing(y: Syn, words: Command, p: int)
    requires words != [] && words[0] in {KwWhile, KwUntil} && Leveled(y)
    ensures StraightAt(y, words) && StraightAt(Reads(y, words, p), [KwDo])
    ensures Leveled(y.(loops := y.loops + [Open(p, true, |y.ifs|)]))
  {
  }

  lemma ReadsDone(y: Syn, p: int, e: int)
    ensures var z := y.(loops := y.loops + [Open(p, true, |y.ifs|)]);
            StraightAt(z, [KwDone]) && Reads(z, [KwDone], e) == y
  {
    assert But(y.loops + [Open(p, true, |y.ifs|)]) == y.loops;
  }

  /** A structured script crosses nothing. */
  lemma FlatUncrossed(b: Block)
    requires ProperBlock(b)
    ensures Uncrossed(FlatBlock(b))
  {
    hide FlatBlock, Straight, Leveled;
    var script := FlatBlock(b);
    assert script[0..0 + |script|] == script;
    assert SynAt(script, 0) == Syn([], []);
    Bottom();
    FlatLevel(script, b, 0);
  }

  // ----- A script that crosses -----

  // while x; do  if a  done  then c; fi
  function Crossing(x: Command, a: Command, c: Command): seq<Command> {
    [[KwWhile] + x, [KwDo], [KwIf] + a, [KwDone], [KwThen], c, [KwFi]]
  }

  // The state after each of its clauses, when the test of the loop fails.
  function Pass(np: Np, x: Command, a: Command, i: nat): Np
    requires Ready(np, 1, 1)
  {
    var off := Loop(false, LpDo, np.iendx, 0);
    var e := Itef(false, true, false, if i <= 4 then IeIf else IeThen);
    var q := np.(fail := false, foffs := if i == 0 then np.foffs else i - 1, loffs := 0, jump := false);
    if i == 0 then np
    else if i == 1 then q.(lpndx := np.lpndx + 1, lp := np.lp[np.lpndx + 1 := off.(state := LpWhile)])
    else if i == 2 then q.(lpndx := np.lpndx + 1, lp := np.lp[np.lpndx + 1 := off])
    else
      var r := q.(iendx := np.iendx + 1, ie := np.ie[np.iendx + 1 := e]);
      if i == 3 then r.(lpndx := np.lpndx + 1, lp := np.lp[np.lpndx + 1 := off])
      else
        var left := r.(lp := np.lp[np.lpndx + 1 := off.(enable := true, state := LpNormal)]);
        if i <= 6 then left else left.(iendx := np.iendx)
  }

  // The clause at `i` takes `np` to `np'` without a rejection.
  ghost predicate Passes(sh: Shell, np: Np, i: nat, trace: seq<Command>, np': Np, trace': seq<Command>)
    requires Safe(np)
  {
    Takes(sh, Running(np, i, trace)) && Step(sh, Running(np, i, trace)) == Running(np', i + 1, trace')
  }

  lemma PassesFirst(sh: Shell, np: Np, trace: seq<Command>, x: Command, a: Command, c: Command)
    requires sh.script == Crossing(x, a, c) && Condition(x) && Condition(a)
    requires Ready(np, 1, 1) && CmdEnabled(np) && np.lpndx == 0 && sh.oracle(trace, np.fail, x)
    ensures Safe(Pass(np, x, a, 1)) && Safe(Pass(np, x, a, 2))
    ensures Passes(sh, np, 0, trace, Pass(np, x, a, 1), trace + [x])
    ensures Passes(sh, Pass(np, x, a, 1), 1, trace + [x], Pass(np, x, a, 2), trace + [x])
  {
    hide SafeSaved, ParseCommand, LoopPhase, ItefPhase;
    var q := Positioned(np, 0);
    SafeAnywhere(np, 0, 0, np.seek, false);
    assert [LoopKeyword(false)] + x == [KwWhile] + x;
    ParseWhile(q, false, x, trace, sh.oracle);
    CommandKeepsSafe(q, [KwWhile] + x, trace, sh.oracle);
    var n1 := Pass(np, x, a, 1);
    assert ParseCommand(q, [KwWhile] + x, trace, sh.oracle).np == n1;
    SafeAnywhere(n1, 1, 0, n1.seek, false);
    ParseDo(Positioned(n1, 1), trace + [x], sh.oracle);
    CommandKeepsSafe(Positioned(n1, 1), [KwDo], trace + [x], sh.oracle);
    assert Positioned(n1, 1).SetLp(n1.LpTop().(state := LpDo)) == Pass(np, x, a, 2);
  }

  lemma PassesIf(sh: Shell, np: Np, trace: seq<Command>, x: Command, a: Command, c: Command)
    requires sh.script == Crossing(x, a, c) && Condition(a) && Ready(np, 1, 1) && Safe(Pass(np, x, a, 2))
    ensures Safe(Pass(np, x, a, 3)) && Passes(sh, Pass(np, x, a, 2), 2, trace, Pass(np, x, a, 3), trace)
  {
    hide SafeSaved, ParseCommand, LoopPhase, ItefPhase;
    var n2 := Pass(np, x, a, 2);
    SafeAnywhere(n2, 2, 0, n2.seek, false);
    assert IfWords(false, a) == [KwIf] + a;
    ParseIf(Positioned(n2, 2), false, a, trace, sh.oracle);
    CommandKeepsSafe(Positioned(n2, 2), [KwIf] + a, trace, sh.oracle);
  }

  lemma PassesDone(sh: Shell, np: Np, trace: seq<Command>, x: Command, a: Command, c: Command)
    requires sh.script == Crossing(x, a, c) && Ready(np, 1, 1) && Safe(Pass(np, x, a, 3))
    ensures Safe(Pass(np, x, a, 4)) && Passes(sh, Pass(np, x, a, 3), 3, trace, Pass(np, x, a, 4), trace)
  {
    hide SafeSaved, ParseCommand, LoopPhase, ItefPhase;
    var n3 := Pass(np, x, a, 3);
    SafeAnywhere(n3, 3, 0, n3.seek, false);
    ParseDone(Positioned(n3, 3), trace, sh.oracle);
    CommandKeepsSafe(Positioned(n3, 3), [KwDone], trace, sh.oracle);
    assert Popped(Positioned(n3, 3)) == Pass(np, x, a, 4);
  }

  lemma PassesThen(sh: Shell, np: Np, trace: seq<Command>, x: Command, a: Command, c: Command)
    requires sh.script == Crossing(x, a, c) && Ready(np, 1, 1) && Safe(Pass(np, x, a, 4))
             && np.LpTop().state == LpNormal
    ensures Safe(Pass(np, x, a, 5)) && Passes(sh, Pass(np, x, a, 4), 4, trace, Pass(np, x, a, 5), trace)
  {
    hide SafeSaved, ParseCommand, LoopPhase, ItefPhase;
    var n4 := Pass(np, x, a, 4);
    SafeAnywhere(n4, 4, 0, n4.seek, false);
    ParseThen(Positioned(n4, 4), trace, sh.oracle);
    CommandKeepsSafe(Positioned(n4, 4), [KwThen], trace, sh.oracle);
    assert Positioned(n4, 4).SetIe(n4.IeTop().(state := IeThen)) == Pass(np, x, a, 5);
  }

  lemma PassesLast(sh: Shell, np: Np, trace: seq<Command>, x: Command, a: Command, c: Command)
    requires sh.script == Crossing(x, a, c) && PlainCommand(c) && Ready(np, 1, 1)
    requires np.LpTop().state == LpNormal && Safe(Pass(np, x, a, 5))
    ensures Safe(Pass(np, x, a, 6)) && Passes(sh, Pass(np, x, a, 5), 5, trace, Pass(np, x, a, 6), trace)
    ensures Safe(Pass(np, x, a, 7)) && Passes(sh, Pass(np, x, a, 6), 6, trace, Pass(np, x, a, 7), trace)
  {
    hide SafeSaved, LoopPhase, ItefPhase;
    var n5, n6 := Pass(np, x, a, 5), Pass(np, x, a, 6);
    SafeAnywhere(n5, 5, 0, n5.seek, false);
    ParsePlain(Positioned(n5, 5), c, trace, sh.oracle);
    SafeAnywhere(n6, 6, 0, n6.seek, false);
    ParseFi(Positioned(n6, 6), trace, sh.oracle);
    CommandKeepsSafe(Positioned(n6, 6), [KwFi], trace, sh.oracle);
  }

  // One step ahead of a run that takes everything.
  lemma TakesBack(sh: Shell, np: Np, i: nat, trace: seq<Command>, np': Np, trace': seq<Command>, n: nat)
    requires Safe(np) && Safe(np') && Passes(sh, np, i, trace, np', trace') && TakesAll(sh, Running(np', i + 1, trace'))
    ensures TakesAll(sh, Running(np, i, trace))
    ensures Iter(sh, Running(np, i, trace), n + 1) == Iter(sh, Running(np', i + 1, trace'), n)
  {
    hide Step, Takes;
    var c := Running(np, i, trace);
    forall j: nat ensures Takes(sh, Iter(sh, c, j)) {
      if j == 0 {
      } else {
        assert Takes(sh, Iter(sh, Step(sh, c), j - 1));
      }
    }
  }

  lemma TakesNothing(sh: Shell, np: Np, trace: seq<Command>)
    requires Safe(np)
    ensures TakesAll(sh, Running(np, |sh.script|, trace))
    ensures Iter(sh, Running(np, |sh.script|, trace), 1) == Halted(np, trace, true)
  {
    hide Step;
    var c := Running(np, |sh.script|, trace);
    AtTheEnd(sh, c);
    assert Iter(sh, c, 1) == Iter(sh, Step(sh, c), 0);
    forall j: nat ensures Takes(sh, Iter(sh, c, j)) {
      if j > 0 {
        HaltedStays(sh, Step(sh, c), j - 1);
      }
    }
  }

  /**
    A script in which a loop ends between an `if` and its `then` is read to its end without a
    rejection and with nothing left open, when the test of the loop fails.
  */
  lemma CrossingIsTaken(sh: Shell, np: Np, trace: seq<Command>, x: Command, a: Command, c: Command)
    requires sh.script == Crossing(x, a, c) && Condition(x) && Condition(a) && PlainCommand(c)
    requires Ready(np, 1, 1) && CmdEnabled(np) && np.iendx == 0 && np.lpndx == 0 && sh.oracle(trace, np.fail, x)
    ensures AllTidy(sh.script) && TakesAll(sh, Running(np, 0, trace)) && !Uncrossed(sh.script)
    ensures var d := Iter(sh, Running(np, 0, trace), 8);
            d.Halted? && d.atEnd && d.np.iendx == 0 && d.np.lpndx == 0 && d.trace == trace + [x]
  {
    hide Pass, Passes, TakesAll, Iter, Step, Takes, AllTidy, Uncrossed, Crossing, SafeIe, SafeSaved, CmdEnabled;
    CrossingCrosses(x, a, c);
    PassesFirst(sh, np, trace, x, a, c);
    var t := trace + [x];
    PassesIf(sh, np, t, x, a, c);
    PassesDone(sh, np, t, x, a, c);
    PassesThen(sh, np, t, x, a, c);
    PassesLast(sh, np, t, x, a, c);
    PassesAll(np, x, a);
    TakesNothing(sh, Pass(np, x, a, 7), t);
    TakesBack(sh, Pass(np, x, a, 6), 6, t, Pass(np, x, a, 7), t, 1);
    TakesBack(sh, Pass(np, x, a, 5), 5, t, Pass(np, x, a, 6), t, 2);
    TakesBack(sh, Pass(np, x, a, 4), 4, t, Pass(np, x, a, 5), t, 3);
    TakesBack(sh, Pass(np, x, a, 3), 3, t, Pass(np, x, a, 4), t, 4);
    TakesBack(sh, Pass(np, x, a, 2), 2, t, Pass(np, x, a, 3), t, 5);
    TakesBack(sh, Pass(np, x, a, 1), 1, t, Pass(np, x, a, 2), t, 6);
    TakesBack(sh, np, 0, trace, Pass(np, x, a, 1), t, 7);
  }

  lemma PassesAll(np: Np, x: Command, a: Command)
    requires Ready(np, 1, 1)
    ensures Pass(np, x, a, 7).iendx == np.iendx && Pass(np, x, a, 7).lpndx == np.lpndx
  {
  }

  lemma CrossingCrosses(x: Command, a: Command, c: Command)
    requires Condition(x) && Condition(a) && PlainCommand(c)
    ensures |Crossing(x, a, c)| == 7 && AllTidy(Crossing(x, a, c)) && !Uncrossed(Crossing(x, a, c))
  {
    var script := Crossing(x, a, c);
    CrossingTidy(x, a, c);
    assert SynAt(script, 0) == Syn([], []);
    hide SynAt, Tidy;
    OneMore(script, 0);
    OneMore(script, 1);
    OneMore(script, 2);
    assert SynAt(script, 3) == Syn([IeIf], [Open(0, true, 0)]);
    assert !Straight(script, 3);
  }

  lemma CrossingTidy(x: Command, a: Command, c: Command)
    requires Condition(x) && Condition(a) && PlainCommand(c)
    ensures AllTidy(Crossing(x, a, c))
  {
    assert Tidy([KwWhile] + x) && Tidy([KwIf] + a) && Tidy(c);
  }
}
