/**
  Structured scripts: the syntax tree that the parser never builds, the command
  list it is read from, and the meaning it ought to have.
*/
module NshStructured {
  import opened NshMachine

  datatype Block = Nil | Cons(head: Stmt, tail: Block)

  datatype Stmt =
    | Cmd(argv: Command)
    | Break
    | If(inverted: bool, cond: Command, thn: Block, hasElse: bool, els: Block)
    | Repeat(until: bool, cond: Command, body: Block)

  // ----- Concrete form -----

  function FlatBlock(b: Block): seq<Command> {
    match b
    case Nil => []
    case Cons(s, rest) => FlatStmt(s) + FlatBlock(rest)
  }

  function FlatStmt(s: Stmt): seq<Command> {
    match s
    case Cmd(argv) => [argv]
    case Break => [[KwBreak]]
    case If(inverted, cond, thn, hasElse, els) =>
      [[KwIf] + (if inverted then [KwBang] else []) + cond, [KwThen]]
      + FlatBlock(thn)
      + (if hasElse then [[KwElse]] + FlatBlock(els) else [])
      + [[KwFi]]
    case Repeat(until, cond, body) =>
      [[if until then KwUntil else KwWhile] + cond, [KwDo]] + FlatBlock(body) + [[KwDone]]
  }

  // A command that is not a keyword, and not the `break` built-in.
  predicate PlainCommand(argv: Command) {
    argv != [] && (argv[0].Text? || argv[0].KwBang? || (argv[0].KwBreak? && |argv| > 1))
  }

  // A command that may follow if, while or until.
  predicate Condition(argv: Command) {
    argv != [] && argv[0].Text? && argv[0].s != ""
  }

  // Every leaf of the tree is a proper command.
  predicate ProperBlock(b: Block) {
    b.Cons? ==> ProperStmt(b.head) && ProperBlock(b.tail)
  }

  predicate ProperStmt(s: Stmt) {
    match s
    case Cmd(argv) => PlainCommand(argv)
    case Break => true
    case If(_, cond, thn, hasElse, els) => Condition(cond) && ProperBlock(thn) && (hasElse ==> ProperBlock(els))
    case Repeat(_, cond, body) => Condition(cond) && ProperBlock(body)
  }

  function Max(a: nat, b: nat): nat {
    if a < b then b else a
  }

  // Levels of if-nesting and of loop-nesting.
  function IfDepth(b: Block): nat {
    match b
    case Nil => 0
    case Cons(s, rest) => Max(IfDepthStmt(s), IfDepth(rest))
  }

  function IfDepthStmt(s: Stmt): nat {
    match s
    case Cmd(_) => 0
    case Break => 0
    case If(_, _, thn, hasElse, els) => 1 + Max(IfDepth(thn), if hasElse then IfDepth(els) else 0)
    case Repeat(_, _, body) => IfDepth(body)
  }

  function LoopDepth(b: Block): nat {
    match b
    case Nil => 0
    case Cons(s, rest) => Max(LoopDepthStmt(s), LoopDepth(rest))
  }

  function LoopDepthStmt(s: Stmt): nat {
    match s
    case Cmd(_) => 0
    case Break => 0
    case If(_, _, thn, hasElse, els) => Max(LoopDepth(thn), if hasElse then LoopDepth(els) else 0)
    case Repeat(_, _, body) => 1 + LoopDepth(body)
  }

  // Where a statement stands relative to the innermost loop around it.
  datatype Context = Outside | Directly | UnderIf

  // No loop directly in this block.
  predicate NoDirectLoop(b: Block) {
    b.Cons? ==> !b.head.Repeat? && NoDirectLoop(b.tail)
  }

  // Where a statement stands that is under an `if` of a block in context `c`.
  function Inner(c: Context): Context {
    if c == Outside then Outside else UnderIf
  }

  /**
    The shapes the machine gets right: no loop directly in the body of a loop (an `if`
    must stand between them), and no `break` under an `if` of the loop body.  What comes
    after a `break` directly in a loop body is never run and may be anything but a loop.
  */
  predicate SupportedBlock(b: Block, c: Context) {
    b.Cons? ==>
      && SupportedStmt(b.head, c)
      && (SupportedBlock(b.tail, c) || (b.head.Break? && c == Directly))
  }

  predicate SupportedStmt(s: Stmt, c: Context) {
    match s
    case Cmd(_) => true
    case Break => c != UnderIf
    case If(_, _, thn, hasElse, els) => SupportedBlock(thn, Inner(c)) && (hasElse ==> SupportedBlock(els, Inner(c)))
    case Repeat(_, _, body) => NoDirectLoop(body) && SupportedBlock(body, Directly)
  }

  // ----- Meaning -----

  // The commands run so far and the value of `$?`.
  datatype History = History(trace: seq<Command>, fail: bool)

  // `OutOfFuel` after `fuel` returns to the top of a loop.
  datatype Outcome = Normal | Broke | Stopped | OutOfFuel

  datatype Result = Result(h: History, fuel: nat, out: Outcome)

  function EvalBlock(b: Block, inLoop: bool, h: History, fuel: nat, oracle: Oracle, ignore: bool): (r: Result)
    ensures r.fuel <= fuel
    decreases fuel, b
  {
    match b
    case Nil => Result(h, fuel, Normal)
    case Cons(s, rest) =>
      var r := EvalStmt(s, inLoop, h, fuel, oracle, ignore);
      if r.out.Normal? then EvalBlock(rest, inLoop, r.h, r.fuel, oracle, ignore) else r
  }

  function EvalStmt(s: Stmt, inLoop: bool, h: History, fuel: nat, oracle: Oracle, ignore: bool): (r: Result)
    ensures r.fuel <= fuel
    decreases fuel, s
  {
    match s
    case Cmd(argv) =>
      var failed := oracle(h.trace, h.fail, argv);
      Result(History(h.trace + [argv], failed), fuel, if failed && !ignore then Stopped else Normal)
    case Break =>
      Result(History(h.trace + [[KwBreak]], false), fuel, if inLoop then Broke else Normal)
    case If(inverted, cond, thn, hasElse, els) =>
      var failed := oracle(h.trace, h.fail, cond);
      var h1 := History(h.trace + [cond], false);
      if failed == inverted then EvalBlock(thn, inLoop, h1, fuel, oracle, ignore)
      else if hasElse then EvalBlock(els, inLoop, h1, fuel, oracle, ignore)
      else Result(h1, fuel, Normal)
    case Repeat(until, cond, body) =>
      var failed := oracle(h.trace, h.fail, cond);
      var h1 := History(h.trace + [cond], false);
      if failed != until then Result(h1, fuel, Normal)
      else
        var r := EvalBlock(body, true, h1, fuel, oracle, ignore);
        match r.out
        case Normal =>
          if r.fuel == 0 then r.(out := OutOfFuel)
          else EvalStmt(s, inLoop, r.h, r.fuel - 1, oracle, ignore)
        case Broke => r.(out := Normal)
        case _ => r
  }
}
