/**
  Loops that are left under an `if`, and loops around them that are left too: after the
  first `break` entries of the if-stack are missing, and the second may bring them back.
*/
module NshRescue {
  import opened NshMachine
  import opened NshStructured
  import opened NshRun
  import opened NshSteps
  import opened NshNesting
  import opened NshPlaced

  // The block, a loop body, has a `break` directly in it.
  predicate DirectBreak(b: Block) {
    b.Cons? && (b.head.Break? || DirectBreak(b.tail))
  }

  // The loop that the block is in, `under` levels of `if` up, is left under at least one and
  // at most `most` of them.
  predicate BreaksWithin(b: Block, under: nat, most: nat) {
    b.Cons? && (BreakWithin(b.head, under, most) || BreaksWithin(b.tail, under, most))
  }

  predicate BreakWithin(s: Stmt, under: nat, most: nat) {
    match s
    case Break => 1 <= under <= most
    case If(_, _, thn, hasElse, els) =>
      BreaksWithin(thn, under + 1, most) || (hasElse && BreaksWithin(els, under + 1, most))
    case _ => false
  }

  // Some loop in the block is left like that.
  predicate LeftWithin(b: Block, most: nat) {
    b.Cons? && (LeftWithinStmt(b.head, most) || LeftWithin(b.tail, most))
  }

  predicate LeftWithinStmt(s: Stmt, most: nat) {
    match s
    case If(_, _, thn, hasElse, els) => LeftWithin(thn, most) || (hasElse && LeftWithin(els, most))
    case Repeat(_, _, body) => BreaksWithin(body, 0, most) || LeftWithin(body, most)
    case _ => false
  }

  /**
    In a block under `depth` levels of `if`: no loop that has a `break` directly in its body
    and stands under `n` levels is around a loop that is left under `n` or fewer, but some.
  */
  predicate NoRescue(b: Block, depth: nat) {
    b.Cons? ==> NoRescueStmt(b.head, depth) && NoRescue(b.tail, depth)
  }

  predicate NoRescueStmt(s: Stmt, depth: nat) {
    match s
    case If(_, _, thn, hasElse, els) => NoRescue(thn, depth + 1) && (hasElse ==> NoRescue(els, depth + 1))
    case Repeat(_, _, body) => (DirectBreak(body) ==> !LeftWithin(body, depth)) && NoRescue(body, depth)
    case _ => true
  }

  // ----- The same, read off the script -----

  // What a `break` at `q` says about the code it is in, which starts at `p`, `under` levels
  // of `if` down in its loop.
  ghost predicate Told(script: seq<Command>, p: nat, q: nat, under: nat, most: nat, direct: bool, within: bool,
                       left: bool)
    requires p <= q <= |script|
  {
    Leaves(script, q) ==>
      var n, base := NestAt(script, q), NestAt(script, p);
      && (|n.loops| == |base.loops| ==>
            (n.ifs == base.ifs ==> direct) && (1 <= under + n.ifs - base.ifs <= most ==> within))
      && (|n.loops| > |base.loops| && 1 <= Loss(script, q) <= most ==> left)
  }

  lemma {:induction false} BlockTold(script: seq<Command>, b: Block, p: nat, q: nat, under: nat, most: nat)
    requires ProperBlock(b) && At(script, p, FlatBlock(b)) && p <= q < p + |FlatBlock(b)|
    ensures Told(script, p, q, under, most, DirectBreak(b), BreaksWithin(b, under, most), LeftWithin(b, most))
    decreases b, 1
  {
    hide FlatStmt, NestAt, ProperStmt, BreakWithin, LeftWithinStmt, Leaves;
    var Cons(s, rest) := b;
    AtSplit(script, p, FlatStmt(s), FlatBlock(rest));
    if q < p + |FlatStmt(s)| {
      StmtTold(script, s, p, q, under, most);
    } else {
      StmtRegion(script, s, p);
      BlockTold(script, rest, p + |FlatStmt(s)|, q, under, most);
    }
  }

  lemma {:induction false} StmtTold(script: seq<Command>, s: Stmt, p: nat, q: nat, under: nat, most: nat)
    requires ProperStmt(s) && At(script, p, FlatStmt(s)) && p <= q < p + |FlatStmt(s)|
    ensures Told(script, p, q, under, most, s.Break?, BreakWithin(s, under, most), LeftWithinStmt(s, most))
    decreases s, 0
  {
    match s
    case Cmd(argv) => ClauseAt(script, p, argv);
    case Break =>
    case If(_, _, _, _, _) => IfTold(script, s, p, q, under, most);
    case Repeat(_, _, _) => LoopTold(script, s, p, q, under, most);
  }

  lemma {:induction false} IfTold(script: seq<Command>, s: Stmt, p: nat, q: nat, under: nat, most: nat)
    requires s.If? && ProperStmt(s) && At(script, p, FlatStmt(s)) && p <= q < p + |FlatStmt(s)|
    ensures Told(script, p, q, under, most, false, BreakWithin(s, under, most), LeftWithinStmt(s, most))
    decreases s, 0, 0
  {
    hide FlatStmt, FlatBlock, NestAt, At, DirectBreak, BreaksWithin, LeftWithin, ProperBlock;
    AtIf(script, p, s);
    var t, e := p + 2, p + 2 + |FlatBlock(s.thn)|;
    OpenIf(script, s.inverted, s.cond, p);
    ClauseAt(script, p, IfWords(s.inverted, s.cond));
    ClauseAt(script, p + 1, [KwThen]);
    BlockRegion(script, s.thn, t);
    if s.hasElse {
      ClauseAt(script, e, [KwElse]);
      ClauseAt(script, e + 1 + |FlatBlock(s.els)|, [KwFi]);
    } else {
      ClauseAt(script, e, [KwFi]);
    }
    if t <= q < e {
      BlockTold(script, s.thn, t, q, under + 1, most);
      assert Within(script, t, q);
    } else if s.hasElse && e < q <= e + |FlatBlock(s.els)| {
      BlockTold(script, s.els, e + 1, q, under + 1, most);
      BlockRegion(script, s.els, e + 1);
      assert Within(script, e + 1, q);
    }
  }

  lemma {:induction false} LoopTold(script: seq<Command>, s: Stmt, p: nat, q: nat, under: nat, most: nat)
    requires s.Repeat? && ProperStmt(s) && At(script, p, FlatStmt(s)) && p <= q < p + |FlatStmt(s)|
    ensures Told(script, p, q, under, most, false, false, LeftWithinStmt(s, most))
    ensures p + 2 <= q < p + |FlatStmt(s)| - 1 ==>
              Told(script, p + 2, q, 0, most, DirectBreak(s.body), BreaksWithin(s.body, 0, most),
                   LeftWithin(s.body, most))
    decreases s, 0, 0
  {
    hide FlatStmt, FlatBlock, NestAt, At, DirectBreak, BreaksWithin, LeftWithin, ProperBlock;
    AtRepeat(script, p, s);
    OpenLoop(script, s.until, s.cond, p);
    ClauseAt(script, p, [LoopKeyword(s.until)] + s.cond);
    ClauseAt(script, p + 1, [KwDo]);
    ClauseAt(script, p + 2 + |FlatBlock(s.body)|, [KwDone]);
    if p + 2 <= q < p + 2 + |FlatBlock(s.body)| {
      BlockTold(script, s.body, p + 2, q, 0, most);
      BlockRegion(script, s.body, p + 2);
      WithinBody(script, p, q);
    }
  }

  // In the body of the loop at `p`: a `break` is either the loop's own or that of a loop inside.
  lemma WithinBody(script: seq<Command>, p: nat, q: nat)
    requires p + 2 <= q <= |script| && Within(script, p + 2, q)
    requires var n := NestAt(script, p); NestAt(script, p + 2) == n.(loops := n.loops + [Open(p, n.ifs)])
    ensures var n, m := NestAt(script, p), NestAt(script, q);
            && |m.loops| > |n.loops| && m.loops[|n.loops|] == Open(p, n.ifs)
            && (|m.loops| == |n.loops| + 1 ==> Last(m.loops) == Open(p, n.ifs))
            && (|m.loops| > |n.loops| + 1 ==> Last(m.loops).pos >= p + 2)
  {
    hide NestAt;
    var n, m := NestAt(script, p), NestAt(script, q);
    assert m.loops[|n.loops|] == m.loops[..|n.loops| + 1][|n.loops|];
  }

  // A loop that is open at `q` and was opened before `m` is open at `m`.
  lemma {:induction false} OpenBefore(script: seq<Command>, m: nat, q: nat, i: nat)
    requires m <= q <= |script| && i < |NestAt(script, q).loops| && NestAt(script, q).loops[i].pos < m
    ensures i < |NestAt(script, m).loops| && NestAt(script, m).loops[i] == NestAt(script, q).loops[i]
    decreases q
  {
    if m == q {
    } else {
      OpenBefore(script, m, q - 1, i);
    }
  }

  lemma ClosedAfter(script: seq<Command>, s: Stmt, p: nat, q: nat, i: nat)
    requires s.Repeat? && ProperStmt(s) && At(script, p, FlatStmt(s))
    requires q <= |script| && i < |NestAt(script, q).loops| && NestAt(script, q).loops[i].pos == p
    ensures q < p + |FlatStmt(s)|
  {
    hide FlatStmt, NestAt, At, Fits, Within;
    var end := p + |FlatStmt(s)|;
    LoopRegion(script, s, p);
    AtRepeat(script, p, s);
    if end <= q {
      OpenBefore(script, end, q, i);
      OpenFrom(script, p, i);
      assert false;
    }
  }

  // A `break` directly in the loop at `p` is in its body.
  lemma OwnIsInside(script: seq<Command>, s: Stmt, p: nat)
    requires s.Repeat? && ProperStmt(s) && At(script, p, FlatStmt(s)) && Own(script, p)
    ensures DirectBreak(s.body)
  {
    hide FlatStmt, FlatBlock, NestAt, At, DirectBreak, BreaksWithin, LeftWithin, Fits;
    var q: nat :| Leaves(script, q) && Last(NestAt(script, q).loops).pos == p && Loss(script, q) == 0;
    var i, end := |NestAt(script, q).loops| - 1, p + |FlatStmt(s)|;
    OpenFrom(script, q, i);
    AtRepeat(script, p, s);
    ClosedAfter(script, s, p, q, i);
    ClauseAt(script, p + 1, [KwDo]);
    ClauseAt(script, end - 1, [KwDone]);
    OpenLoop(script, s.until, s.cond, p);
    BlockRegion(script, s.body, p + 2);
    LoopTold(script, s, p, q, 0, 0);
    WithinBody(script, p, q);
  }

  // The same for one `break`: loops around it, from the `k`th on, have none directly in their
  // bodies, or stand under fewer `if`s than are lost.
  ghost predicate Spared(script: seq<Command>, k: nat, q: nat) {
    Leaves(script, q) ==>
      var n := NestAt(script, q);
      forall i: nat :: k <= i < |n.loops| - 1 && Own(script, n.loops[i].pos) ==>
        Loss(script, q) == 0 || Loss(script, q) > n.loops[i].ifs
  }

  lemma {:induction false} BlockSpared(script: seq<Command>, b: Block, p: nat, q: nat, depth: nat)
    requires ProperBlock(b) && NoRescue(b, depth) && At(script, p, FlatBlock(b))
             && p <= q < p + |FlatBlock(b)|
    requires NestAt(script, p).ifs == depth
    ensures Spared(script, |NestAt(script, p).loops|, q)
    decreases b, 1
  {
    hide FlatStmt, NestAt, ProperStmt, NoRescueStmt, Spared;
    var Cons(s, rest) := b;
    AtSplit(script, p, FlatStmt(s), FlatBlock(rest));
    if q < p + |FlatStmt(s)| {
      StmtSpared(script, s, p, q, depth);
    } else {
      StmtRegion(script, s, p);
      BlockSpared(script, rest, p + |FlatStmt(s)|, q, depth);
    }
  }

  lemma {:induction false} StmtSpared(script: seq<Command>, s: Stmt, p: nat, q: nat, depth: nat)
    requires ProperStmt(s) && NoRescueStmt(s, depth) && At(script, p, FlatStmt(s))
             && p <= q < p + |FlatStmt(s)|
    requires NestAt(script, p).ifs == depth
    ensures Spared(script, |NestAt(script, p).loops|, q)
    decreases s, 0
  {
    match s
    case Cmd(argv) => ClauseAt(script, p, argv);
    case Break =>
    case If(_, _, _, _, _) => IfSpared(script, s, p, q, depth);
    case Repeat(_, _, _) => LoopSpared(script, s, p, q, depth);
  }

  lemma {:induction false} IfSpared(script: seq<Command>, s: Stmt, p: nat, q: nat, depth: nat)
    requires s.If? && ProperStmt(s) && NoRescueStmt(s, depth) && At(script, p, FlatStmt(s))
    requires p <= q < p + |FlatStmt(s)|
    requires NestAt(script, p).ifs == depth
    ensures Spared(script, |NestAt(script, p).loops|, q)
    decreases s, 0, 0
  {
    hide FlatStmt, FlatBlock, NestAt, At, NoRescue, ProperBlock, Own;
    AtIf(script, p, s);
    var t, e := p + 2, p + 2 + |FlatBlock(s.thn)|;
    OpenIf(script, s.inverted, s.cond, p);
    ClauseAt(script, p, IfWords(s.inverted, s.cond));
    ClauseAt(script, p + 1, [KwThen]);
    BlockRegion(script, s.thn, t);
    if s.hasElse {
      ClauseAt(script, e, [KwElse]);
      ClauseAt(script, e + 1 + |FlatBlock(s.els)|, [KwFi]);
    } else {
      ClauseAt(script, e, [KwFi]);
    }
    if t <= q < e {
      BlockSpared(script, s.thn, t, q, depth + 1);
    } else if s.hasElse && e < q <= e + |FlatBlock(s.els)| {
      BlockSpared(script, s.els, e + 1, q, depth + 1);
    }
  }

  lemma {:induction false} LoopSpared(script: seq<Command>, s: Stmt, p: nat, q: nat, depth: nat)
    requires s.Repeat? && ProperStmt(s) && NoRescueStmt(s, depth) && At(script, p, FlatStmt(s))
    requires p <= q < p + |FlatStmt(s)|
    requires NestAt(script, p).ifs == depth
    ensures Spared(script, |NestAt(script, p).loops|, q)
    decreases s, 0, 0
  {
    hide FlatStmt, FlatBlock, NestAt, At, NoRescue, ProperBlock, Own, DirectBreak, LeftWithin, BreaksWithin;
    AtRepeat(script, p, s);
    OpenLoop(script, s.until, s.cond, p);
    ClauseAt(script, p, [LoopKeyword(s.until)] + s.cond);
    ClauseAt(script, p + 1, [KwDo]);
    ClauseAt(script, p + 2 + |FlatBlock(s.body)|, [KwDone]);
    if p + 2 <= q < p + 2 + |FlatBlock(s.body)| {
      BlockSpared(script, s.body, p + 2, q, depth);
      BlockRegion(script, s.body, p + 2);
      WithinBody(script, p, q);
      LoopTold(script, s, p, q, 0, depth);
      if Own(script, p) {
        OwnIsInside(script, s, p);
      }
    }
  }

  lemma FlatUnrescued(b: Block)
    requires ProperBlock(b) && NoRescue(b, 0)
    ensures Unrescued(FlatBlock(b))
  {
    hide FlatBlock, NestAt, Own, NoRescue;
    var script := FlatBlock(b);
    assert script[0..0 + |script|] == script;
    Outermost(script);
    forall q: nat, i: nat
      | Leaves(script, q) && i < |NestAt(script, q).loops| - 1 && Own(script, NestAt(script, q).loops[i].pos)
      ensures Loss(script, q) == 0 || Loss(script, q) > NestAt(script, q).loops[i].ifs
    {
      BlockSpared(script, b, 0, q, 0);
    }
  }
}
