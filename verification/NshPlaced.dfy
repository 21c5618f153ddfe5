/**
  What every run over a well-nested script keeps, of any shape: the loop-stack holds the
  loops that are open at the position reached, and the if-stack is `missing` entries
  short of the `if`s that are open there.  Entries go missing when a `break` drops the
  `if`s between it and its loop.
*/
module NshPlaced {
  import opened NshOption
  import opened NshMachine
  import opened NshStructured
  import opened NshRun
  import opened NshSteps
  import opened NshNesting

  ghost predicate Nested(script: seq<Command>) {
    && NestAt(script, |script|) == Nest(0, [])
    && forall q :: 0 <= q < |script| ==> Fits(script, q) && Sound(script, q)
  }

  // The innermost loop that is open was opened under no more `if`s than are open.
  ghost predicate Sound(script: seq<Command>, q: nat)
    requires q <= |script|
  {
    var n := NestAt(script, q);
    n.loops != [] ==> Last(n.loops).ifs <= n.ifs
  }

  lemma FlatNested(b: Block)
    requires ProperBlock(b)
    ensures Nested(FlatBlock(b))
  {
    hide NestAt, Fits, FlatBlock, Within, Sound;
    var script := FlatBlock(b);
    assert script[0..0 + |script|] == script;
    BlockRegion(script, b, 0);
    Outermost(script);
    forall q | 0 <= q < |script| ensures Sound(script, q) {
      WithinSound(script, q);
    }
  }

  lemma Outermost(script: seq<Command>)
    ensures NestAt(script, 0) == Nest(0, [])
  {
  }

  lemma WithinSound(script: seq<Command>, q: nat)
    requires q <= |script| && Within(script, 0, q) && NestAt(script, 0) == Nest(0, [])
    ensures Sound(script, q)
  {
    hide NestAt;
  }

  // A loop that is open was opened by the clause at its place, in the nesting there.
  lemma {:induction false} OpenFrom(script: seq<Command>, p: nat, i: nat)
    requires p <= |script| && i < |NestAt(script, p).loops|
    ensures var o := NestAt(script, p).loops[i];
            && 0 <= o.pos < p && BeginsLoop(script[o.pos])
            && NestAt(script, o.pos) == Nest(o.ifs, NestAt(script, p).loops[..i])
    decreases p
  {
    var n := NestAt(script, p - 1);
    if i < |n.loops| {
      OpenFrom(script, p - 1, i);
      assert NestAt(script, p).loops[..i] == n.loops[..i];
    } else {
      assert NestAt(script, p).loops[..i] == n.loops;
    }
  }

  // ----- Loops that are left by `break` -----

  ghost predicate Leaves(script: seq<Command>, q: nat) {
    q < |script| && script[q] == [KwBreak] && NestAt(script, q).loops != []
  }

  // The `if`s between a `break` and its loop: as many entries it drops.
  ghost function Loss(script: seq<Command>, q: nat): int
    requires Leaves(script, q)
  {
    NestAt(script, q).ifs - Last(NestAt(script, q).loops).ifs
  }

  // The loop at `t` has a `break` directly in its body.
  ghost predicate Own(script: seq<Command>, t: int) {
    exists q: nat :: Leaves(script, q) && Last(NestAt(script, q).loops).pos == t && Loss(script, q) == 0
  }

  // No loop with a `break` directly in its body, under as many `if`s as are lost, is around
  // one that is left under `if`s.
  ghost predicate Unrescued(script: seq<Command>) {
    forall q: nat, i: nat ::
      Leaves(script, q) && i < |NestAt(script, q).loops| - 1 && Own(script, NestAt(script, q).loops[i].pos) ==>
        Loss(script, q) == 0 || Loss(script, q) > NestAt(script, q).loops[i].ifs
  }

  // ----- The invariant -----

  predicate AfterIfWord(script: seq<Command>, p: nat)
    requires p <= |script|
  {
    p > 0 && Begins(script[p - 1], KwIf)
  }

  predicate AfterLoopWord(script: seq<Command>, p: nat)
    requires p <= |script|
  {
    p > 0 && BeginsLoop(script[p - 1])
  }

  // Entry `k` is the open loop number `k`.
  ghost predicate Holds(script: seq<Command>, np: Np, loops: seq<Open>, k: nat, missing: nat) {
    && 1 <= k <= |loops| && k < |np.lp|
    && var e, o := np.lp[k], loops[k - 1];
    && e.topoffs == o.pos
    && e.iendx <= o.ifs <= e.iendx + missing
    && (Unrescued(script) && e.enable && Own(script, o.pos) ==> e.iendx + missing == o.ifs || missing > o.ifs)
  }

  // No fewer entries were missing when an inner loop was opened.
  ghost predicate Ordered(lp: seq<Loop>, lpndx: nat, loops: seq<Open>) {
    && lpndx == |loops| < |lp|
    && forall j, k :: 1 <= j <= k <= lpndx ==> loops[j - 1].ifs - lp[j].iendx <= loops[k - 1].ifs - lp[k].iendx
  }

  ghost predicate HoldsAll(script: seq<Command>, np: Np, loops: seq<Open>, missing: nat) {
    && Ordered(np.lp, np.lpndx, loops)
    && forall k :: 1 <= k <= np.lpndx ==> Holds(script, np, loops, k, missing)
  }

  // None of the entries up to `h` waits for its `then`, but perhaps the one at `but`.
  ghost predicate ClearTo(ie: seq<Itef>, h: nat, but: int) {
    h < |ie| && forall j :: 0 <= j <= h && j != but ==> ie[j].state != IeIf
  }

  // So it is for all entries in use and all that `break` may bring back.
  ghost predicate Settled(np: Np, begun: bool) {
    var but := if begun then np.iendx else -1;
    && np.iendx < |np.ie| && np.lpndx < |np.lp|
    && (begun ==> np.ie[np.iendx].state == IeIf)
    && ClearTo(np.ie, np.iendx, but)
    && forall k :: 1 <= k <= np.lpndx ==> ClearTo(np.ie, np.lp[k].iendx, but)
  }

  ghost predicate Placed(script: seq<Command>, np: Np, p: int, missing: nat) {
    && Safe(np) && np.fd >= 0 && 0 <= p <= |script|
    && np.iendx + missing == NestAt(script, p).ifs
    && HoldsAll(script, np, NestAt(script, p).loops, missing)
    && (np.AwaitsDo() <==> AfterLoopWord(script, p))
    && Settled(np, AfterIfWord(script, p))
  }

  // ----- One step -----

  // The script goes on to a place like this one, or stops short of its end.
  ghost predicate Goes(sh: Shell, np: Np, p: int, trace: seq<Command>, missing: nat)
    requires Safe(np)
  {
    match Step(sh, Running(np, p, trace))
    case Halted(_, _, atEnd) => !atEnd
    case Running(np', p', _) => exists more: nat :: Placed(sh.script, np', p', more) && (missing >= 1 ==> more >= 1)
  }

  // Nothing is run by the next step while entries are missing, or the shape of the
  // script says that they stay missing.
  ghost predicate Calm(sh: Shell, np: Np, p: int, trace: seq<Command>, missing: nat)
    requires Safe(np)
  {
    missing >= 1 ==> Unrescued(sh.script) || Step(sh, Running(np, p, trace)).trace == trace
  }

  // A clause that keeps as many entries missing as there are, if it does not stop the script.
  lemma GoesOn(sh: Shell, np: Np, p: int, trace: seq<Command>, missing: nat, r: Parsed)
    requires Safe(np) && 0 <= p < |sh.script| && !sh.ignore
    requires r == ParseCommand(Positioned(np, p), sh.script[p], trace, sh.oracle)
    requires r.ok ==> !r.np.jump && !r.rejected && Placed(sh.script, r.np, p + 1, missing)
    ensures Goes(sh, np, p, trace, missing)
  {
    hide Placed, ParseCommand;
  }

  lemma NotAfter(script: seq<Command>, p: nat)
    requires Nested(script) && p < |script|
    ensures AfterIfWord(script, p) ==> script[p] == [KwThen]
    ensures AfterLoopWord(script, p) ==> script[p] == [KwDo]
  {
    if p > 0 {
      assert Fits(script, p - 1);
    }
  }

  // The same stacks, at a place with the same nesting.
  lemma PlacedAlike(script: seq<Command>, np: Np, p: nat, np': Np, p': nat, missing: nat)
    requires Placed(script, np, p, missing) && p' <= |script|
    requires np' == np.(fail := np'.fail, foffs := np'.foffs, loffs := np'.loffs, jump := np'.jump, seek := np'.seek)
    requires NestAt(script, p') == NestAt(script, p)
    requires AfterIfWord(script, p') == AfterIfWord(script, p) && AfterLoopWord(script, p') == AfterLoopWord(script, p)
    ensures Placed(script, np', p', missing)
  {
    hide NestAt, Own, Unrescued, Filled, Ordered;
    var loops := NestAt(script, p).loops;
    forall k | 1 <= k <= np.lpndx ensures Holds(script, np', loops, k, missing) {
      assert Holds(script, np, loops, k, missing);
    }
    SafeAlike(np, np');
  }

  lemma SafeAlike(np: Np, np': Np)
    requires Safe(np)
    requires np' == np.(fail := np'.fail, foffs := np'.foffs, loffs := np'.loffs, jump := np'.jump, seek := np'.seek)
    ensures Safe(np')
  {
  }

  lemma TopClear(np: Np)
    requires Settled(np, false)
    ensures np.IeTop().state != IeIf
  {
  }

  lemma GoesPlain(sh: Shell, np: Np, p: int, trace: seq<Command>, missing: nat)
    requires Nested(sh.script) && Placed(sh.script, np, p, missing) && p < |sh.script| && !sh.ignore
    requires PlainCommand(sh.script[p])
    ensures Goes(sh, np, p, trace, missing)
  {
    hide NestAt, HoldsAll, ClearTo, ParseCommand;
    NotAfter(sh.script, p);
    TopClear(np);
    SamePlain(sh.script, p);
    var r := PlainRuns(np, p, sh.script[p], trace, sh.oracle);
    PlacedAlike(sh.script, np, p, r.np, p + 1, missing);
    GoesOn(sh, np, p, trace, missing, r);
  }

  lemma PlainRuns(np: Np, p: int, words: Command, trace: seq<Command>, oracle: Oracle) returns (r: Parsed)
    requires Safe(np) && !np.AwaitsDo() && np.IeTop().state != IeIf && PlainCommand(words)
    ensures r == ParseCommand(Positioned(np, p), words, trace, oracle)
    ensures r.np == np.(fail := r.np.fail, foffs := p, loffs := 0, jump := false) && !r.rejected
  {
    hide LoopPhase, ItefPhase;
    ParsePlain(Positioned(np, p), words, trace, oracle);
    r := ParseCommand(Positioned(np, p), words, trace, oracle);
  }

  lemma SamePlain(script: seq<Command>, p: nat)
    requires p < |script| && (PlainCommand(script[p]) || script[p] == [KwBreak])
    ensures NestAt(script, p + 1) == NestAt(script, p) && !AfterIfWord(script, p + 1) && !AfterLoopWord(script, p + 1)
  {
    assert NestAt(script, p + 1) == Read(NestAt(script, p), script[p], p);
  }

  // ----- `break` -----

  lemma GoesBreak(sh: Shell, np: Np, p: int, trace: seq<Command>, missing: nat)
    requires Nested(sh.script) && Placed(sh.script, np, p, missing) && p < |sh.script| && !sh.ignore
    requires sh.script[p] == [KwBreak] && Calm(sh, np, p, trace, missing)
    ensures Goes(sh, np, p, trace, missing)
  {
    hide NestAt, HoldsAll, ClearTo, Goes, Step;
    if CmdEnabled(np) && np.LpTop().state == LpDo {
      GoesOut(sh, np, p, trace, missing);
    } else {
      hide ParseCommand;
      NotAfter(sh.script, p);
      TopClear(np);
      SamePlain(sh.script, p);
      var r := BreakPasses(np, p, trace, sh.oracle);
      PlacedAlike(sh.script, np, p, r.np, p + 1, missing);
      GoesOn(sh, np, p, trace, missing, r);
    }
  }

  // A `break` that is not run, or that leaves no loop.
  lemma BreakPasses(np: Np, p: int, trace: seq<Command>, oracle: Oracle) returns (r: Parsed)
    requires Safe(np) && !np.AwaitsDo() && np.IeTop().state != IeIf && !(CmdEnabled(np) && np.LpTop().state == LpDo)
    ensures r == ParseCommand(Positioned(np, p), [KwBreak], trace, oracle) && !r.rejected
    ensures r.np == np.(fail := r.np.fail, foffs := p, loffs := 0, jump := false)
  {
    hide LoopPhase, ItefPhase;
    ParsePlain(Positioned(np, p), [KwBreak], trace, oracle);
    r := ParseCommand(Positioned(np, p), [KwBreak], trace, oracle);
  }

  // A `break` that leaves its loop.
  function Left(np: Np): Np
    requires np.InBounds()
  {
    np.(iendx := np.LpTop().iendx, fail := false, lp := np.lp[np.lpndx := np.LpTop().(enable := false)])
  }

  lemma GoesOut(sh: Shell, np: Np, p: int, trace: seq<Command>, missing: nat)
    requires Nested(sh.script) && Placed(sh.script, np, p, missing) && p < |sh.script| && !sh.ignore
    requires sh.script[p] == [KwBreak] && CmdEnabled(np) && np.LpTop().state == LpDo
    requires Calm(sh, np, p, trace, missing)
    ensures Goes(sh, np, p, trace, missing)
  {
    hide NestAt, HoldsAll, ClearTo, Step;
    NotAfter(sh.script, p);
    SavedClear(np);
    BreakRuns(sh, np, p, trace);
    var more := PlacedLeft(sh.script, np, p, missing);
    PlacedAlike(sh.script, Left(np), p + 1, Left(Positioned(np, p)), p + 1, more);
  }

  lemma SavedClear(np: Np)
    requires Settled(np, false) && np.lpndx >= 1
    ensures np.LpTop().iendx < |np.ie| && np.ie[np.LpTop().iendx].state != IeIf && np.IeTop().state != IeIf
  {
    assert ClearTo(np.ie, np.lp[np.lpndx].iendx, -1);
  }

  lemma BreakRuns(sh: Shell, np: Np, p: int, trace: seq<Command>)
    requires Safe(np) && 0 <= p < |sh.script| && sh.script[p] == [KwBreak]
    requires CmdEnabled(np) && np.LpTop().state == LpDo && np.IeTop().state != IeIf
    requires np.LpTop().iendx < |np.ie| && np.ie[np.LpTop().iendx].state != IeIf
    ensures Step(sh, Running(np, p, trace)) == Running(Left(Positioned(np, p)), p + 1, trace + [[KwBreak]])
  {
    hide LoopPhase, ItefPhase;
    ParsePlain(Positioned(np, p), [KwBreak], trace, sh.oracle);
  }

  lemma PlacedLeft(script: seq<Command>, np: Np, p: nat, missing: nat) returns (more: nat)
    requires Nested(script) && Placed(script, np, p, missing) && p < |script| && script[p] == [KwBreak]
    requires np.LpTop().state == LpDo && np.LpTop().enable && np.lpndx >= 1
    requires missing >= 1 ==> Unrescued(script)
    ensures Placed(script, Left(np), p + 1, more) && (missing >= 1 ==> more >= 1)
    ensures more == NestAt(script, p).ifs - np.LpTop().iendx
  {
    hide NestAt, ClearTo, Filled;
    SamePlain(script, p);
    NotAfter(script, p);
    var n := NestAt(script, p);
    var o := Last(n.loops);
    assert Fits(script, p);
    assert Holds(script, np, n.loops, np.lpndx, missing);
    assert Leaves(script, p);
    assert Loss(script, p) == 0 ==> Own(script, o.pos);
    more := n.ifs - np.LpTop().iendx;
    LeftHolds(script, np, p, missing, more);
    LeftSafe(np);
    LeftSettled(np);
  }

  lemma LeftSettled(np: Np)
    requires Settled(np, false) && np.lpndx >= 1
    ensures Settled(Left(np), false)
  {
    hide ClearTo;
    SavedClear(np);
    forall k | 1 <= k <= np.lpndx ensures ClearTo(np.ie, Left(np).lp[k].iendx, -1) {
      assert ClearTo(np.ie, np.lp[k].iendx, -1);
    }
  }

  lemma LeftSafe(np: Np)
    requires Safe(np) && np.LpTop().state == LpDo && np.lpndx >= 1
    ensures Safe(Left(np))
  {
    assert Filled(np.ie, np.lp[np.lpndx].iendx);
  }

  lemma LeftHolds(script: seq<Command>, np: Np, p: nat, missing: nat, more: nat)
    requires Nested(script) && p < |script| && script[p] == [KwBreak] && np.lpndx >= 1
    requires np.InBounds() && HoldsAll(script, np, NestAt(script, p).loops, missing)
    requires np.LpTop().enable && more == NestAt(script, p).ifs - np.LpTop().iendx
    requires Leaves(script, p) && (Unrescued(script) && Loss(script, p) == 0 ==> more == missing)
    ensures HoldsAll(script, Left(np), NestAt(script, p).loops, more)
  {
    hide NestAt, Own;
    var n := NestAt(script, p);
    assert Fits(script, p);
    assert Holds(script, np, n.loops, np.lpndx, missing);
    forall k | 1 <= k <= np.lpndx ensures Holds(script, Left(np), n.loops, k, more) {
      assert Holds(script, np, n.loops, k, missing);
      if k < np.lpndx && Unrescued(script) && Own(script, n.loops[k - 1].pos) {
        assert Loss(script, p) == 0 || Loss(script, p) > n.loops[k - 1].ifs;
      }
    }
  }

  // ----- Keywords of `if` -----

  // A keyword that is rejected stops the script.
  lemma Rejected(np: Np, words: Command, trace: seq<Command>, oracle: Oracle)
    requires Safe(np) && !np.AwaitsDo() && np.IeTop().state != IeIf
    requires LoopPhase(np, words) == Phase(np, words, true) && ItefPhase(np, words) == ItefError(np)
    ensures !ParseCommand(np, words, trace, oracle).ok
  {
    hide LoopPhase, ItefPhase;
  }

  lemma GoesIf(sh: Shell, np: Np, p: int, trace: seq<Command>, missing: nat)
    requires Nested(sh.script) && Placed(sh.script, np, p, missing) && p < |sh.script| && !sh.ignore
    requires Begins(sh.script[p], KwIf)
    ensures Goes(sh, np, p, trace, missing)
  {
    hide NestAt, HoldsAll, ClearTo, ParseCommand;
    var words := sh.script[p];
    NotAfter(sh.script, p);
    TopClear(np);
    assert Fits(sh.script, p);
    var inverted := words[1] == KwBang;
    var r := IfRuns(np, p, inverted, if inverted then words[2..] else words[1..], trace, sh.oracle);
    if r.ok {
      PlacedBegun(sh.script, np, p, r.np, missing);
    }
    GoesOn(sh, np, p, trace, missing, r);
  }

  lemma IfRuns(np: Np, p: int, inverted: bool, cond: Command, trace: seq<Command>, oracle: Oracle) returns (r: Parsed)
    requires Safe(np) && !np.AwaitsDo() && np.IeTop().state != IeIf && Condition(cond)
    ensures r == ParseCommand(Positioned(np, p), IfWords(inverted, cond), trace, oracle) && Safe(r.np)
    ensures r.ok ==>
              && np.iendx + 1 < |np.ie| && !r.np.jump && !r.rejected && |r.np.ie| == |np.ie|
              && r.np == np.(fail := r.np.fail, foffs := p, loffs := 0, jump := false, iendx := np.iendx + 1,
                             ie := np.ie[np.iendx + 1 := r.np.ie[np.iendx + 1]])
              && r.np.ie[np.iendx + 1].state == IeIf
  {
    hide ParseCommand;
    var q := Positioned(np, p);
    r := ParseCommand(q, IfWords(inverted, cond), trace, oracle);
    CommandKeepsSafe(q, IfWords(inverted, cond), trace, oracle);
    if np.iendx + 1 < |np.ie| {
      ParseIf(q, inverted, cond, trace, oracle);
    } else {
      IfTooDeep(q, inverted, cond);
      Rejected(q, IfWords(inverted, cond), trace, oracle);
    }
  }

  lemma IfTooDeep(np: Np, inverted: bool, cond: Command)
    requires np.InBounds() && !np.AwaitsDo() && Condition(cond) && np.iendx + 1 == |np.ie|
    ensures LoopPhase(np, IfWords(inverted, cond)) == Phase(np, IfWords(inverted, cond), true)
    ensures ItefPhase(np, IfWords(inverted, cond)) == ItefError(np)
  {
    var words := IfWords(inverted, cond);
    assert words[0] == KwIf;
    if inverted {
      assert words[1..] == [KwBang] + cond && words[2..] == cond;
    } else {
      assert words[1..] == cond;
    }
  }

  lemma PlacedBegun(script: seq<Command>, np: Np, p: nat, np': Np, missing: nat)
    requires Nested(script) && Placed(script, np, p, missing) && p < |script| && Begins(script[p], KwIf)
    requires Safe(np') && np.iendx + 1 < |np.ie| && |np'.ie| == |np.ie|
    requires np' == np.(fail := np'.fail, foffs := np'.foffs, loffs := np'.loffs, jump := np'.jump,
                        iendx := np.iendx + 1, ie := np.ie[np.iendx + 1 := np'.ie[np.iendx + 1]])
    requires np'.ie[np.iendx + 1].state == IeIf
    ensures Placed(script, np', p + 1, missing)
  {
    hide Own, Unrescued, Filled, Ordered;
    NotAfter(script, p);
    assert NestAt(script, p + 1) == Read(NestAt(script, p), script[p], p);
    hide NestAt;
    var loops := NestAt(script, p).loops;
    forall k | 1 <= k <= np.lpndx
      ensures Holds(script, np', loops, k, missing) && ClearTo(np'.ie, np'.lp[k].iendx, np'.iendx)
    {
      assert Holds(script, np, loops, k, missing) && ClearTo(np.ie, np.lp[k].iendx, -1);
    }
  }

  lemma GoesThen(sh: Shell, np: Np, p: int, trace: seq<Command>, missing: nat)
    requires Nested(sh.script) && Placed(sh.script, np, p, missing) && p < |sh.script| && !sh.ignore
    requires sh.script[p] == [KwThen]
    ensures Goes(sh, np, p, trace, missing)
  {
    hide NestAt, HoldsAll, ClearTo, ParseCommand;
    NotAfter(sh.script, p);
    assert Fits(sh.script, p);
    var q := Positioned(np, p);
    ParseThen(q, trace, sh.oracle);
    var r := ParseCommand(q, [KwThen], trace, sh.oracle);
    CommandKeepsSafe(q, [KwThen], trace, sh.oracle);
    PlacedTurned(sh.script, np, p, r.np, IeThen, missing);
    GoesOn(sh, np, p, trace, missing, r);
  }

  // The top entry moves on to the next part of its `if`.
  lemma PlacedTurned(script: seq<Command>, np: Np, p: nat, np': Np, state: ItefState, missing: nat)
    requires Placed(script, np, p, missing) && p < |script| && Safe(np') && state != IeIf
    requires script[p] in {[KwThen], [KwElse]} && !AfterLoopWord(script, p)
             && (AfterIfWord(script, p) || np.IeTop().state != IeIf)
    requires np' == Positioned(np, p).SetIe(np.IeTop().(state := state))
    ensures Placed(script, np', p + 1, missing)
  {
    hide Own, Unrescued, Filled, Ordered;
    assert NestAt(script, p + 1) == Read(NestAt(script, p), script[p], p);
    hide NestAt;
    var loops := NestAt(script, p).loops;
    forall k | 1 <= k <= np.lpndx
      ensures Holds(script, np', loops, k, missing) && ClearTo(np'.ie, np'.lp[k].iendx, -1)
    {
      assert Holds(script, np, loops, k, missing);
      assert ClearTo(np.ie, np.lp[k].iendx, if AfterIfWord(script, p) then np.iendx else -1);
    }
  }

  lemma GoesElse(sh: Shell, np: Np, p: int, trace: seq<Command>, missing: nat)
    requires Nested(sh.script) && Placed(sh.script, np, p, missing) && p < |sh.script| && !sh.ignore
    requires sh.script[p] == [KwElse]
    ensures Goes(sh, np, p, trace, missing)
  {
    hide NestAt, HoldsAll, ClearTo, ParseCommand, LoopPhase, ItefPhase;
    NotAfter(sh.script, p);
    TopClear(np);
    var q := Positioned(np, p);
    var r := ParseCommand(q, [KwElse], trace, sh.oracle);
    CommandKeepsSafe(q, [KwElse], trace, sh.oracle);
    if np.IeTop().state == IeThen {
      ParseElse(q, trace, sh.oracle);
      PlacedTurned(sh.script, np, p, r.np, IeElse, missing);
    } else {
      Unfit(q, [KwElse]);
      Rejected(q, [KwElse], trace, sh.oracle);
    }
    GoesOn(sh, np, p, trace, missing, r);
  }

  lemma Unfit(np: Np, words: Command)
    requires np.InBounds() && !np.AwaitsDo()
    requires (words == [KwElse] && np.IeTop().state != IeThen)
             || (words == [KwFi] && np.IeTop().state !in {IeThen, IeElse})
    ensures LoopPhase(np, words) == Phase(np, words, true) && ItefPhase(np, words) == ItefError(np)
  {
  }

  lemma GoesFi(sh: Shell, np: Np, p: int, trace: seq<Command>, missing: nat)
    requires Nested(sh.script) && Placed(sh.script, np, p, missing) && p < |sh.script| && !sh.ignore
    requires sh.script[p] == [KwFi]
    ensures Goes(sh, np, p, trace, missing)
  {
    hide NestAt, HoldsAll, ClearTo, ParseCommand, LoopPhase, ItefPhase;
    NotAfter(sh.script, p);
    TopClear(np);
    var q := Positioned(np, p);
    var r := ParseCommand(q, [KwFi], trace, sh.oracle);
    CommandKeepsSafe(q, [KwFi], trace, sh.oracle);
    if np.IeTop().state in {IeThen, IeElse} {
      ParseFi(q, trace, sh.oracle);
      PlacedClosed(sh.script, np, p, r.np, missing);
    } else {
      Unfit(q, [KwFi]);
      Rejected(q, [KwFi], trace, sh.oracle);
    }
    GoesOn(sh, np, p, trace, missing, r);
  }

  lemma PlacedClosed(script: seq<Command>, np: Np, p: nat, np': Np, missing: nat)
    requires Nested(script) && Placed(script, np, p, missing) && p < |script| && script[p] == [KwFi]
    requires Safe(np') && np.iendx >= 1 && np' == Positioned(np, p).(iendx := np.iendx - 1)
    ensures Placed(script, np', p + 1, missing)
  {
    hide Own, Unrescued, Filled, Ordered;
    NotAfter(script, p);
    assert NestAt(script, p + 1) == Read(NestAt(script, p), script[p], p);
    hide NestAt;
    var loops := NestAt(script, p).loops;
    forall k | 1 <= k <= np.lpndx
      ensures Holds(script, np', loops, k, missing) && ClearTo(np'.ie, np'.lp[k].iendx, -1)
    {
      assert Holds(script, np, loops, k, missing) && ClearTo(np.ie, np.lp[k].iendx, -1);
    }
  }

  // ----- Keywords of loops -----

  lemma GoesWhile(sh: Shell, np: Np, p: int, trace: seq<Command>, missing: nat)
    requires Nested(sh.script) && Placed(sh.script, np, p, missing) && p < |sh.script| && !sh.ignore
    requires BeginsLoop(sh.script[p])
    ensures Goes(sh, np, p, trace, missing)
  {
    hide NestAt, HoldsAll, ClearTo, ParseCommand;
    var words := sh.script[p];
    NotAfter(sh.script, p);
    TopClear(np);
    assert Fits(sh.script, p);
    var until := words[0] == KwUntil;
    assert words == [LoopKeyword(until)] + words[1..];
    var r := WhileRuns(np, p, until, words[1..], trace, sh.oracle);
    if r.ok {
      PlacedPushed(sh.script, np, p, r.np, missing);
    }
    GoesOn(sh, np, p, trace, missing, r);
  }

  lemma WhileRuns(np: Np, p: int, until: bool, cond: Command, trace: seq<Command>, oracle: Oracle) returns (r: Parsed)
    requires Safe(np) && !np.AwaitsDo() && np.IeTop().state != IeIf && Condition(cond) && np.fd >= 0 && p >= 0
    ensures r == ParseCommand(Positioned(np, p), [LoopKeyword(until)] + cond, trace, oracle) && Safe(r.np)
    ensures r.ok ==>
              && np.lpndx + 1 < |np.lp| && |r.np.lp| == |np.lp| && !r.np.jump && !r.rejected
              && var e := r.np.lp[np.lpndx + 1];
              && r.np == np.(fail := r.np.fail, foffs := p, loffs := 0, jump := false, lpndx := np.lpndx + 1,
                             lp := np.lp[np.lpndx + 1 := e])
              && e.state in {LpWhile, LpUntil} && e.iendx == np.iendx && e.topoffs == p
  {
    hide ParseCommand;
    var q, words := Positioned(np, p), [LoopKeyword(until)] + cond;
    r := ParseCommand(q, words, trace, oracle);
    CommandKeepsSafe(q, words, trace, oracle);
    if np.lpndx + 1 < |np.lp| {
      ParseWhile(q, until, cond, trace, oracle);
    } else {
      LoopTooDeep(q, until, cond, trace, oracle);
    }
  }

  lemma LoopTooDeep(np: Np, until: bool, cond: Command, trace: seq<Command>, oracle: Oracle)
    requires Safe(np) && np.IeTop().state != IeIf && np.lpndx + 1 == |np.lp|
    ensures !ParseCommand(np, [LoopKeyword(until)] + cond, trace, oracle).ok
  {
    hide ItefPhase;
    assert LoopPhase(np, [LoopKeyword(until)] + cond) == LoopError(np);
    hide LoopPhase;
  }

  lemma PlacedPushed(script: seq<Command>, np: Np, p: nat, np': Np, missing: nat)
    requires Nested(script) && Placed(script, np, p, missing) && p < |script| && BeginsLoop(script[p])
    requires Safe(np') && np.lpndx + 1 < |np.lp| && |np'.lp| == |np.lp|
    requires var e := np'.lp[np.lpndx + 1];
             && np' == np.(fail := np'.fail, foffs := p, loffs := 0, jump := false, lpndx := np.lpndx + 1,
                           lp := np.lp[np.lpndx + 1 := e])
             && e.state in {LpWhile, LpUntil} && e.iendx == np.iendx && e.topoffs == p
    ensures Placed(script, np', p + 1, missing)
  {
    hide Own, Unrescued, Filled;
    NotAfter(script, p);
    assert NestAt(script, p + 1) == Read(NestAt(script, p), script[p], p);
    hide NestAt, ClearTo;
    var n := NestAt(script, p);
    var loops := n.loops + [Open(p, n.ifs)];
    assert Fits(script, p);
    forall k | 1 <= k <= np'.lpndx
      ensures Holds(script, np', loops, k, missing) && ClearTo(np'.ie, np'.lp[k].iendx, -1)
    {
      if k <= np.lpndx {
        assert Holds(script, np, n.loops, k, missing) && ClearTo(np.ie, np.lp[k].iendx, -1);
      }
    }
  }

  lemma GoesDo(sh: Shell, np: Np, p: int, trace: seq<Command>, missing: nat)
    requires Nested(sh.script) && Placed(sh.script, np, p, missing) && p < |sh.script| && !sh.ignore
    requires sh.script[p] == [KwDo]
    ensures Goes(sh, np, p, trace, missing)
  {
    hide NestAt, HoldsAll, ClearTo, ParseCommand;
    NotAfter(sh.script, p);
    assert Fits(sh.script, p);
    var q := Positioned(np, p);
    ParseDo(q, trace, sh.oracle);
    var r := ParseCommand(q, [KwDo], trace, sh.oracle);
    CommandKeepsSafe(q, [KwDo], trace, sh.oracle);
    PlacedDoing(sh.script, np, p, r.np, missing);
    GoesOn(sh, np, p, trace, missing, r);
  }

  lemma OrderedTop(lp: seq<Loop>, lpndx: nat, loops: seq<Open>, e: Loop)
    requires Ordered(lp, lpndx, loops) && e.iendx == lp[lpndx].iendx
    ensures Ordered(lp[lpndx := e], lpndx, loops)
  {
  }

  lemma PlacedDoing(script: seq<Command>, np: Np, p: nat, np': Np, missing: nat)
    requires Nested(script) && Placed(script, np, p, missing) && p < |script| && script[p] == [KwDo]
    requires Safe(np') && np' == Positioned(np, p).SetLp(np.LpTop().(state := LpDo))
    ensures Placed(script, np', p + 1, missing)
  {
    hide Own, Unrescued, Filled, Ordered;
    NotAfter(script, p);
    assert NestAt(script, p + 1) == Read(NestAt(script, p), script[p], p);
    hide NestAt, ClearTo;
    var loops := NestAt(script, p).loops;
    OrderedTop(np.lp, np.lpndx, loops, np.LpTop().(state := LpDo));
    forall k | 1 <= k <= np.lpndx
      ensures Holds(script, np', loops, k, missing) && ClearTo(np'.ie, np'.lp[k].iendx, -1)
    {
      assert Holds(script, np, loops, k, missing) && ClearTo(np.ie, np.lp[k].iendx, -1);
    }
  }

  lemma GoesDone(sh: Shell, np: Np, p: int, trace: seq<Command>, missing: nat)
    requires Nested(sh.script) && Placed(sh.script, np, p, missing) && p < |sh.script| && !sh.ignore
    requires sh.script[p] == [KwDone]
    ensures Goes(sh, np, p, trace, missing)
  {
    hide NestAt, ClearTo, ParseCommand, Own, Unrescued;
    NotAfter(sh.script, p);
    assert Fits(sh.script, p);
    var q := Positioned(np, p);
    assert np.lpndx >= 1 && np.LpTop().state == LpDo;
    ParseDone(q, trace, sh.oracle);
    var r := ParseCommand(q, [KwDone], trace, sh.oracle);
    CommandKeepsSafe(q, [KwDone], trace, sh.oracle);
    assert Holds(sh.script, np, NestAt(sh.script, p).loops, np.lpndx, missing);
    var t := if np.LpTop().enable then np.LpTop().topoffs else p + 1;
    PlacedPopped(sh.script, np, p, r.np, t, missing);
  }

  lemma PlacedPopped(script: seq<Command>, np: Np, p: nat, np': Np, t: int, missing: nat)
    requires Nested(script) && Placed(script, np, p, missing) && p < |script| && script[p] == [KwDone]
    requires Safe(np') && np.lpndx >= 1 && np' == Popped(Positioned(np, p))
    requires t == if np.LpTop().enable then np.LpTop().topoffs else p + 1
    ensures Placed(script, np', t, missing)
  {
    hide Own, Unrescued, Filled, ClearTo, NestAt;
    NotAfter(script, p);
    var n := NestAt(script, p);
    assert Holds(script, np, n.loops, np.lpndx, missing);
    PoppedNest(script, p);
    var o := Last(n.loops);
    if t == o.pos {
      NotAfter(script, t);
    }
    var loops := n.loops[..np.lpndx - 1];
    forall k | 1 <= k <= np'.lpndx
      ensures Holds(script, np', loops, k, missing) && ClearTo(np'.ie, np'.lp[k].iendx, -1)
    {
      assert Holds(script, np, n.loops, k, missing) && ClearTo(np.ie, np.lp[k].iendx, -1);
    }
  }

  lemma PoppedNest(script: seq<Command>, p: nat)
    requires Nested(script) && p < |script| && script[p] == [KwDone]
    ensures var n := NestAt(script, p);
            && n.loops != []
            && var o, outer := Last(n.loops), Nest(n.ifs, n.loops[..|n.loops| - 1]);
            && NestAt(script, p + 1) == outer && !AfterIfWord(script, p + 1) && !AfterLoopWord(script, p + 1)
            && 0 <= o.pos < p && BeginsLoop(script[o.pos]) && NestAt(script, o.pos) == outer
  {
    assert Fits(script, p);
    assert NestAt(script, p + 1) == Read(NestAt(script, p), script[p], p);
    OpenFrom(script, p, |NestAt(script, p).loops| - 1);
  }

  // ----- Whole runs -----

  lemma GoesStep(sh: Shell, np: Np, p: nat, trace: seq<Command>, missing: nat)
    requires Nested(sh.script) && Placed(sh.script, np, p, missing) && p < |sh.script| && !sh.ignore
    requires Calm(sh, np, p, trace, missing)
    ensures Goes(sh, np, p, trace, missing)
  {
    hide Placed, Goes, Calm, NestAt, Step;
    assert Fits(sh.script, p);
    match sh.script[p][0]
    case KwIf => GoesIf(sh, np, p, trace, missing);
    case KwThen => GoesThen(sh, np, p, trace, missing);
    case KwElse => GoesElse(sh, np, p, trace, missing);
    case KwFi => GoesFi(sh, np, p, trace, missing);
    case KwWhile => GoesWhile(sh, np, p, trace, missing);
    case KwUntil => GoesWhile(sh, np, p, trace, missing);
    case KwDo => GoesDo(sh, np, p, trace, missing);
    case KwDone => GoesDone(sh, np, p, trace, missing);
    case _ =>
      if sh.script[p] == [KwBreak] {
        GoesBreak(sh, np, p, trace, missing);
      } else {
        GoesPlain(sh, np, p, trace, missing);
      }
  }

  ghost predicate Steady(sh: Shell, c: Config)
    requires Safe(c.np)
  {
    Unrescued(sh.script) || forall i: nat :: OnLevel(sh, Iter(sh, c, i), 0)
  }

  lemma SteadyNext(sh: Shell, c: Config)
    requires Safe(c.np) && Steady(sh, c)
    ensures Steady(sh, Step(sh, c))
    ensures Unrescued(sh.script) || OnLevel(sh, c, 0)
  {
    hide Step, Unrescued, OnLevel;
    if !Unrescued(sh.script) {
      assert OnLevel(sh, Iter(sh, c, 0), 0);
      forall i: nat ensures OnLevel(sh, Iter(sh, Step(sh, c), i), 0) {
        assert OnLevel(sh, Iter(sh, c, i + 1), 0);
      }
    }
  }

  ghost predicate PlacedConfig(sh: Shell, c: Config, missing: nat) {
    c.Running? && Placed(sh.script, c.np, c.pos, missing)
  }

  // Once entries are missing the end of the script is not reached.
  lemma {:induction false} Stays(sh: Shell, c: Config, missing: nat, n: nat)
    requires Nested(sh.script) && !sh.ignore && PlacedConfig(sh, c, missing) && Steady(sh, c)
    ensures match Iter(sh, c, n)
            case Running(_, _, _) =>
              exists more: nat :: PlacedConfig(sh, Iter(sh, c, n), more) && (missing >= 1 ==> more >= 1)
            case Halted(_, _, atEnd) => missing >= 1 ==> !atEnd
    decreases n
  {
    hide Step, Unrescued, OnLevel, Steady, HoldsAll, Settled, NestAt;
    if n == 0 {
      assert PlacedConfig(sh, Iter(sh, c, n), missing);
    } else {
      SteadyNext(sh, c);
      var d := Step(sh, c);
      if c.pos == |sh.script| {
        AtTheEnd(sh, c);
        HaltedStays(sh, d, n - 1);
      } else {
        Quiet(sh, c, missing);
        GoesStep(sh, c.np, c.pos, c.trace, missing);
        if d.Running? {
          var more: nat :| Placed(sh.script, d.np, d.pos, more) && (missing >= 1 ==> more >= 1);
          Stays(sh, d, more, n - 1);
        } else {
          HaltedStays(sh, d, n - 1);
        }
      }
    }
  }

  lemma Quiet(sh: Shell, c: Config, missing: nat)
    requires PlacedConfig(sh, c, missing) && (Unrescued(sh.script) || OnLevel(sh, c, 0))
    ensures Calm(sh, c.np, c.pos, c.trace, missing)
  {
    hide Step, Unrescued;
  }
}
